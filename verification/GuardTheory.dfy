/** What the guards decide, said without their traversal: by chains of nested selections through the possibly
    cyclic graph, and by the query with its fragments written out. */
module GuardTheory {
  import opened Wrappers
  import opened Guards

  // What is selected directly below a selection.
  function Children(doc: Document, s: Selection): seq<Selection>
  {
    match s
    case Field(_, sub) => sub
    case InlineFragment(sub) => sub
    case FragmentSpread(name) => if Defined(doc, name) then ForName(doc, name).value else []
  }

  // A way down: each selection is directly below the one before, the first is among ss.
  predicate IsChain(doc: Document, ss: seq<Selection>, chain: seq<Selection>)
    decreases |chain|
  {
    chain == [] || (chain[0] in ss && IsChain(doc, Children(doc, chain[0]), chain[1..]))
  }

  // A spread that enters a fragment.
  predicate Enters(doc: Document, s: Selection) { s.FragmentSpread? && Defined(doc, s.name) }

  // No fragment is entered twice, and none of visited is entered.
  predicate Simple(doc: Document, chain: seq<Selection>, visited: set<string>)
  {
    && (forall i :: 0 <= i < |chain| && Enters(doc, chain[i]) ==> chain[i].name !in visited)
    && (forall i, j :: 0 <= i < j < |chain| && Enters(doc, chain[i]) && Enters(doc, chain[j]) ==>
          chain[i].name != chain[j].name)
  }

  // A selection that adds a level: a field with selections, an inline fragment, a defined spread.
  predicate Opens(doc: Document, s: Selection)
  {
    match s
    case Field(_, sub) => sub != []
    case InlineFragment(_) => true
    case FragmentSpread(name) => Defined(doc, name)
  }

  function Weight(doc: Document, chain: seq<Selection>): nat
  {
    if chain == [] then 0 else (if Opens(doc, chain[0]) then 1 else 0) + Weight(doc, chain[1..])
  }

  function Visit(doc: Document, s: Selection, visited: set<string>): set<string>
  {
    if Enters(doc, s) then visited + {s.name} else visited
  }

  lemma SimpleTail(doc: Document, chain: seq<Selection>, visited: set<string>)
    requires chain != [] && Simple(doc, chain, visited)
    ensures Simple(doc, chain[1..], Visit(doc, chain[0], visited))
  {
  }

  lemma SimpleCons(doc: Document, s: Selection, chain: seq<Selection>, visited: set<string>)
    requires Simple(doc, chain, Visit(doc, s, visited)) && (Enters(doc, s) ==> s.name !in visited)
    ensures Simple(doc, [s] + chain, visited)
  {
  }

  lemma {:induction false} MemberHeight(doc: Document, ss: seq<Selection>, s: Selection, visited: set<string>)
    requires s in ss
    ensures HeightOf(doc, s, visited) <= Height(doc, ss, visited)
  {
    if s != ss[0] { MemberHeight(doc, ss[1..], s, visited); }
  }

  // No simple chain is longer than the height...
  lemma {:induction false} HeightBounds(doc: Document, ss: seq<Selection>, visited: set<string>, chain: seq<Selection>)
    requires IsChain(doc, ss, chain) && Simple(doc, chain, visited)
    ensures Weight(doc, chain) <= Height(doc, ss, visited)
    decreases |chain|
  {
    if chain != [] {
      var s := chain[0];
      MemberHeight(doc, ss, s, visited);
      SimpleTail(doc, chain, visited);
      HeightBounds(doc, Children(doc, s), Visit(doc, s, visited), chain[1..]);
    }
  }

  // ... and one is as long.
  lemma {:induction false} HeightReached(doc: Document, ss: seq<Selection>, visited: set<string>)
    returns (chain: seq<Selection>)
    ensures IsChain(doc, ss, chain) && Simple(doc, chain, visited)
    ensures Weight(doc, chain) == Height(doc, ss, visited)
    decreases Names(doc) - visited, ss, 1
  {
    chain := [];
    if ss != [] {
      if HeightOf(doc, ss[0], visited) >= Height(doc, ss[1..], visited) {
        if HeightOf(doc, ss[0], visited) > 0 {
          var below := HeightReached(doc, Children(doc, ss[0]), Visit(doc, ss[0], visited));
          chain := [ss[0]] + below;
          SimpleCons(doc, ss[0], below, visited);
          assert chain[1..] == below;
        }
      } else {
        chain := HeightReached(doc, ss[1..], visited);
      }
    }
  }

  /** The depth limit refuses exactly the operations with a fragment-simple chain that opens maxDepth levels or more
      below the first one. */
  lemma DepthGuardExact(doc: Document, operation: seq<Selection>, maxDepth: int)
    ensures 1 + Height(doc, operation, {}) > maxDepth <==>
      exists chain :: IsChain(doc, operation, chain) && Simple(doc, chain, {}) && 1 + Weight(doc, chain) > maxDepth
  {
    if 1 + Height(doc, operation, {}) > maxDepth {
      var chain := HeightReached(doc, operation, {});
    }
    forall chain | IsChain(doc, operation, chain) && Simple(doc, chain, {})
      ensures Weight(doc, chain) <= Height(doc, operation, {})
    {
      HeightBounds(doc, operation, {}, chain);
    }
  }

  function Last(chain: seq<Selection>): Selection
    requires chain != []
  {
    chain[|chain| - 1]
  }

  // The chain ends in a field whose argument the guard refuses.
  predicate EndsInBadField(chain: seq<Selection>, max: int)
  {
    chain != [] && Last(chain).Field? && FieldError(Last(chain).first, max).Some?
  }

  lemma {:induction false} ChainSplit(doc: Document, ss: seq<Selection>, a: seq<Selection>, b: seq<Selection>)
    ensures IsChain(doc, ss, a + b) <==>
      IsChain(doc, ss, a) && IsChain(doc, if a == [] then ss else Children(doc, Last(a)), b)
    decreases |a|
  {
    if a == [] {
      assert a + b == b;
    } else {
      assert (a + b)[1..] == a[1..] + b;
      ChainSplit(doc, Children(doc, a[0]), a[1..], b);
    }
  }

  // Between two entries of one fragment a chain can be cut.
  lemma CutLoop(doc: Document, ss: seq<Selection>, chain: seq<Selection>, i: nat, j: nat)
    requires IsChain(doc, ss, chain) && i < j < |chain|
    requires Enters(doc, chain[i]) && Enters(doc, chain[j]) && chain[i].name == chain[j].name
    ensures IsChain(doc, ss, chain[..i + 1] + chain[j + 1..])
  {
    var a, b, c := chain[..i + 1], chain[i + 1..j + 1], chain[j + 1..];
    assert a + b + c == chain;
    assert Last(a) == chain[i] && Last(a + b) == chain[j];
    CutMiddle(doc, ss, a, b, c);
  }

  lemma CutMiddle(doc: Document, ss: seq<Selection>, a: seq<Selection>, b: seq<Selection>, c: seq<Selection>)
    requires IsChain(doc, ss, a + b + c) && a != []
    requires Children(doc, Last(a)) == Children(doc, Last(a + b))
    ensures IsChain(doc, ss, a + c)
  {
    ChainSplit(doc, ss, a + b, c);
    ChainSplit(doc, ss, a, b);
    ChainSplit(doc, ss, a, c);
  }

  // Reachable at all means reachable without entering a fragment twice.
  lemma {:induction false} SimpleChainExists(doc: Document, ss: seq<Selection>, chain: seq<Selection>)
    returns (c: seq<Selection>)
    requires IsChain(doc, ss, chain) && chain != [] && Last(chain).Field?
    ensures IsChain(doc, ss, c) && c != [] && Last(c) == Last(chain) && Simple(doc, c, {})
    decreases |chain|
  {
    if Simple(doc, chain, {}) {
      c := chain;
    } else {
      var shorter := Shortened(doc, ss, chain);
      c := SimpleChainExists(doc, ss, shorter);
    }
  }

  lemma Shortened(doc: Document, ss: seq<Selection>, chain: seq<Selection>) returns (c: seq<Selection>)
    requires IsChain(doc, ss, chain) && chain != [] && Last(chain).Field? && !Simple(doc, chain, {})
    ensures IsChain(doc, ss, c) && c != [] && Last(c) == Last(chain) && |c| < |chain|
  {
    var i, j := EnteredTwice(doc, chain);
    CutLoop(doc, ss, chain, i, j);
    c := chain[..i + 1] + chain[j + 1..];
  }

  lemma EnteredTwice(doc: Document, chain: seq<Selection>) returns (i: nat, j: nat)
    requires !Simple(doc, chain, {})
    ensures i < j < |chain| && Enters(doc, chain[i]) && Enters(doc, chain[j]) && chain[i].name == chain[j].name
  {
    i, j :| 0 <= i < j < |chain| && Enters(doc, chain[i]) && Enters(doc, chain[j]) && chain[i].name == chain[j].name;
  }

  lemma {:induction false} MemberError(doc: Document, max: int, ss: seq<Selection>, s: Selection, visited: set<string>)
    requires s in ss && ErrorOf(doc, max, s, visited).Some?
    ensures FirstError(doc, max, ss, visited).Some?
  {
    if s != ss[0] { MemberError(doc, max, ss[1..], s, visited); }
  }

  lemma {:induction false} SimpleChainFound(
    doc: Document, max: int, ss: seq<Selection>, visited: set<string>, chain: seq<Selection>)
    requires IsChain(doc, ss, chain) && Simple(doc, chain, visited) && EndsInBadField(chain, max)
    ensures FirstError(doc, max, ss, visited).Some?
    decreases |chain|
  {
    var s := chain[0];
    if |chain| > 1 {
      SimpleTail(doc, chain, visited);
      SimpleChainFound(doc, max, Children(doc, s), Visit(doc, s, visited), chain[1..]);
    }
    MemberError(doc, max, ss, s, visited);
  }

  lemma {:induction false} ErrorHasChain(doc: Document, max: int, ss: seq<Selection>, visited: set<string>)
    returns (chain: seq<Selection>)
    requires FirstError(doc, max, ss, visited).Some?
    ensures IsChain(doc, ss, chain) && EndsInBadField(chain, max)
    ensures FieldError(Last(chain).first, max) == FirstError(doc, max, ss, visited)
    decreases Names(doc) - visited, ss
  {
    var s := ss[0];
    if ErrorOf(doc, max, s, visited).None? {
      chain := ErrorHasChain(doc, max, ss[1..], visited);
    } else if s.Field? && FieldError(s.first, max).Some? {
      chain := [s];
    } else {
      var below := ErrorHasChain(doc, max, Children(doc, s), Visit(doc, s, visited));
      chain := [s] + below;
      assert chain[1..] == below;
    }
  }

  /** Although it cuts repeated fragments, the page-size guard accepts exactly when no field reachable through any
      chain of selections and spreads, cyclic ones included, has a refused argument. */
  lemma FirstGuardExact(doc: Document, max: int, operation: seq<Selection>)
    ensures FirstError(doc, max, operation, {}) == None <==>
      !exists chain :: IsChain(doc, operation, chain) && EndsInBadField(chain, max)
  {
    if FirstError(doc, max, operation, {}).Some? {
      var chain := ErrorHasChain(doc, max, operation, {});
    }
    forall chain | IsChain(doc, operation, chain) && EndsInBadField(chain, max)
      ensures FirstError(doc, max, operation, {}).Some?
    {
      var c := SimpleChainExists(doc, operation, chain);
      SimpleChainFound(doc, max, operation, {}, c);
    }
  }

  // No first argument, or one whose value is from 1 to the maximum: a whole number, text of one, or a number whose
  // whole part is one.
  predicate Allowed(first: Argument, max: int)
  {
    match first
    case Absent => true
    case Failing => false
    case Evaluated(IntValue(i)) => 1 <= i <= max
    case Evaluated(FloatValue(r)) => 1.0 <= r < (max + 1) as real
    case Evaluated(StringValue(parsed)) => parsed.Some? && 1 <= parsed.value <= max
    case Evaluated(OtherValue) => false
  }

  // A value above the maximum.
  predicate Excessive(value: GoValue, max: int)
  {
    match value
    case IntValue(i) => i > max && i >= 1
    case FloatValue(r) => r >= (max + 1) as real && r >= 1.0
    case StringValue(parsed) => parsed.Some? && parsed.value > max && parsed.value >= 1
    case OtherValue => false
  }

  // The error of an argument that the guard refuses, by its value.
  function Reason(first: Argument, max: int): GuardError
    requires !Allowed(first, max)
  {
    if first.Failing? then GuardError("invalid pagination argument", "GRAPHQL_PAGINATION_INVALID")
    else if Excessive(first.value, max) then
      GuardError("first exceeds the configured maximum", "GRAPHQL_PAGINATION_LIMIT")
    else GuardError("first must be greater than zero", "GRAPHQL_PAGINATION_INVALID")
  }

  // A number's whole part, truncated toward zero, compared with whole numbers.
  lemma WholePart(r: real, max: int)
    ensures IntOf(FloatValue(r)).Some?
    ensures IntOf(FloatValue(r)).value >= 1 <==> r >= 1.0
    ensures r >= 1.0 ==> (IntOf(FloatValue(r)).value > max <==> r >= (max + 1) as real)
  {
  }

  /** A field is accepted exactly when it has no `first` or one from 1 to the maximum, and refused with the error that
      says why; said on the values, however they are written. */
  lemma FieldErrorMeaning(first: Argument, max: int)
    ensures FieldError(first, max) == if Allowed(first, max) then None else Some(Reason(first, max))
  {
    if first.Evaluated? && first.value.FloatValue? { WholePart(first.value.r, max); }
  }

  // Some chain that enters no fragment twice opens more levels than the limit.
  ghost predicate TooDeep(doc: Document, operation: seq<Selection>, maxDepth: int)
  {
    exists chain :: IsChain(doc, operation, chain) && Simple(doc, chain, {}) && 1 + Weight(doc, chain) > maxDepth
  }

  // A field that chain leads to.
  predicate Reaches(doc: Document, operation: seq<Selection>, chain: seq<Selection>)
  {
    IsChain(doc, operation, chain) && chain != [] && Last(chain).Field?
  }

  /** The guard's answer: too deep exactly when the depth limit is on and some chain goes beyond it; otherwise nothing
      exactly when page sizes are not limited or every field that can be reached at all has an allowed argument; and
      otherwise the error of one that has not. */
  lemma GuardExact(doc: Document, operation: seq<Selection>, maxDepth: int, maxPageSize: int)
    ensures var v := Verdict(operation, doc, maxDepth, maxPageSize);
      && (v == Some(TOO_DEEP) <==> maxDepth > 0 && TooDeep(doc, operation, maxDepth))
      && (v == None <==>
            && (maxDepth > 0 ==> !TooDeep(doc, operation, maxDepth))
            && (maxPageSize > 0 ==>
                  forall chain :: Reaches(doc, operation, chain) ==> Allowed(Last(chain).first, maxPageSize)))
      && (v != None && v != Some(TOO_DEEP) ==>
            exists chain :: Reaches(doc, operation, chain) && !Allowed(Last(chain).first, maxPageSize)
                            && v == Some(Reason(Last(chain).first, maxPageSize)))
  {
    DepthGuardExact(doc, operation, maxDepth);
    FirstGuardExact(doc, maxPageSize, operation);
    forall chain | Reaches(doc, operation, chain)
      ensures EndsInBadField(chain, maxPageSize) <==> !Allowed(Last(chain).first, maxPageSize)
    {
      FieldErrorMeaning(Last(chain).first, maxPageSize);
    }
    if FirstError(doc, maxPageSize, operation, {}).Some? {
      var chain := ErrorHasChain(doc, maxPageSize, operation, {});
      FieldErrorMeaning(Last(chain).first, maxPageSize);
      assert Reaches(doc, operation, chain);
    }
  }

  // Fragment i is the first one of that name.
  predicate FirstNamed(doc: Document, name: string, i: int)
  {
    0 <= i < |doc| && doc[i].name == name && forall j :: 0 <= j < i ==> doc[j].name != name
  }

  /** A spread stands for the selections of the first fragment of its name, and for nothing when there is none. */
  lemma {:induction false} ForNameExact(doc: Document, name: string)
    ensures ForName(doc, name).None? ==> forall i :: 0 <= i < |doc| ==> doc[i].name != name
    ensures ForName(doc, name).Some? ==>
      exists i :: FirstNamed(doc, name, i) && doc[i].selections == ForName(doc, name).value
  {
    if doc != [] && doc[0].name == name {
      assert FirstNamed(doc, name, 0);
    } else if doc != [] {
      var rest := doc[1..];
      ForNameExact(rest, name);
      if ForName(rest, name).Some? {
        var i :| FirstNamed(rest, name, i) && rest[i].selections == ForName(rest, name).value;
        forall j | 0 <= j < i + 1 ensures doc[j].name != name {
          if j > 0 { assert doc[j] == rest[j - 1]; }
        }
        assert FirstNamed(doc, name, i + 1);
      } else {
        forall j | 0 <= j < |doc| ensures doc[j].name != name {
          if j > 0 { assert doc[j] == rest[j - 1]; }
        }
      }
    }
  }

  /** ts is ss with every defined spread replaced by an inline fragment of the same selections, all the way down. */
  predicate IsInlining(doc: Document, ss: seq<Selection>, ts: seq<Selection>)
    decreases ts
  {
    if ts == [] then ss == []
    else ss != [] && Inlines(doc, ss[0], ts[0]) && IsInlining(doc, ss[1..], ts[1..])
  }

  predicate Inlines(doc: Document, s: Selection, t: Selection)
    decreases t
  {
    match s
    case Field(first, sub) => t.Field? && t.first == first && IsInlining(doc, sub, t.selections)
    case InlineFragment(sub) => t.InlineFragment? && IsInlining(doc, sub, t.selections)
    case FragmentSpread(name) =>
      if Defined(doc, name) then t.InlineFragment? && IsInlining(doc, ForName(doc, name).value, t.selections)
      else t == s
  }

  lemma {:induction false} InliningIsUnique(doc: Document, ss: seq<Selection>, ts: seq<Selection>, us: seq<Selection>)
    requires IsInlining(doc, ss, ts) && IsInlining(doc, ss, us)
    ensures ts == us
    decreases ts
  {
    if ts != [] {
      var t, u := ts[0], us[0];
      if !t.FragmentSpread? { InliningIsUnique(doc, Children(doc, ss[0]), t.selections, u.selections); }
      InliningIsUnique(doc, ss[1..], ts[1..], us[1..]);
      assert ts == [t] + ts[1..] && us == [u] + us[1..];
    }
  }

  function Size(ts: seq<Selection>): nat
    decreases ts
  {
    if ts == [] then 0 else SizeOf(ts[0]) + Size(ts[1..])
  }

  function SizeOf(t: Selection): nat
    decreases t
  {
    if t.FragmentSpread? then 1 else 1 + Size(t.selections)
  }

  // The fragments of the current path, with their inlinings, none smaller than what is still to be visited.
  ghost predicate Ancestors(doc: Document, visited: set<string>, trees: map<string, seq<Selection>>, size: nat)
  {
    forall n :: n in visited ==>
      n in trees && Defined(doc, n) && IsInlining(doc, ForName(doc, n).value, trees[n]) && Size(trees[n]) >= size
  }

  // A fragment of the current path is not met again: its inlining would contain itself.
  lemma NotVisited(
    doc: Document, visited: set<string>, trees: map<string, seq<Selection>>, name: string, t: Selection, size: nat)
    requires Ancestors(doc, visited, trees, size) && Defined(doc, name) && Inlines(doc, FragmentSpread(name), t)
    requires size >= SizeOf(t)
    ensures name !in visited
  {
    if name in visited { InliningIsUnique(doc, ForName(doc, name).value, trees[name], t.selections); }
  }

  lemma {:induction false} InliningKeeps(
    doc: Document, max: int, ss: seq<Selection>, ts: seq<Selection>, visited: set<string>,
    trees: map<string, seq<Selection>>)
    requires IsInlining(doc, ss, ts) && Ancestors(doc, visited, trees, Size(ts))
    ensures Height(doc, ss, visited) == Height([], ts, {})
    ensures FirstError(doc, max, ss, visited) == FirstError([], max, ts, {})
    decreases ts
  {
    if ts != [] {
      InliningKeepsOne(doc, max, ss[0], ts[0], visited, trees);
      InliningKeeps(doc, max, ss[1..], ts[1..], visited, trees);
    }
  }

  lemma {:induction false} InliningKeepsOne(
    doc: Document, max: int, s: Selection, t: Selection, visited: set<string>, trees: map<string, seq<Selection>>)
    requires Inlines(doc, s, t) && Ancestors(doc, visited, trees, SizeOf(t))
    ensures HeightOf(doc, s, visited) == HeightOf([], t, {})
    ensures ErrorOf(doc, max, s, visited) == ErrorOf([], max, t, {})
    decreases t
  {
    match s
    case Field(_, sub) =>
      InliningKeeps(doc, max, sub, t.selections, visited, trees);
    case InlineFragment(sub) =>
      InliningKeeps(doc, max, sub, t.selections, visited, trees);
    case FragmentSpread(name) =>
      if Defined(doc, name) {
        NotVisited(doc, visited, trees, name, t, SizeOf(t));
        InliningKeeps(doc, max, ForName(doc, name).value, t.selections, visited + {name}, trees[name := t.selections]);
      }
  }

  /** A query whose fragments can be written out has the depth, and the first page-size error in document order, of the
      written-out query, which has no fragment definitions. */
  lemma GuardsSeeTheInlinedQuery(doc: Document, max: int, operation: seq<Selection>, inlined: seq<Selection>)
    requires IsInlining(doc, operation, inlined)
    ensures Height(doc, operation, {}) == Height([], inlined, {})
    ensures FirstError(doc, max, operation, {}) == FirstError([], max, inlined, {})
  {
    InliningKeeps(doc, max, operation, inlined, {}, map[]);
  }

  // The arguments of all fields of a query without fragment definitions, in document order.
  function Arguments(ts: seq<Selection>): seq<Argument>
    decreases ts
  {
    if ts == [] then [] else ArgumentsOf(ts[0]) + Arguments(ts[1..])
  }

  function ArgumentsOf(t: Selection): seq<Argument>
    decreases t
  {
    match t
    case Field(first, sub) => [first] + Arguments(sub)
    case InlineFragment(sub) => Arguments(sub)
    case FragmentSpread(_) => []
  }

  // e is the error of the first refused argument; None when none is refused.
  ghost predicate FirstRefused(arguments: seq<Argument>, max: int, e: Option<GuardError>)
  {
    if e.None? then forall i :: 0 <= i < |arguments| ==> FieldError(arguments[i], max).None?
    else exists i :: RefusedAt(arguments, max, i, e)
  }

  predicate RefusedAt(arguments: seq<Argument>, max: int, i: int, e: Option<GuardError>)
  {
    && 0 <= i < |arguments| && FieldError(arguments[i], max) == e
    && forall j :: 0 <= j < i ==> FieldError(arguments[j], max).None?
  }

  lemma RefusedInOrder(a: seq<Argument>, b: seq<Argument>, max: int, ea: Option<GuardError>, eb: Option<GuardError>)
    requires FirstRefused(a, max, ea) && FirstRefused(b, max, eb)
    ensures FirstRefused(a + b, max, if ea.Some? then ea else eb)
  {
    var c := a + b;
    if ea.Some? {
      var i :| RefusedAt(a, max, i, ea);
      assert RefusedAt(c, max, i, ea);
    } else if eb.Some? {
      var i :| RefusedAt(b, max, i, eb);
      assert RefusedAt(c, max, |a| + i, eb);
    }
  }

  /** On a query without fragment definitions the guard reports the first refused argument in document order. */
  lemma {:induction false} FirstInDocumentOrder(max: int, ts: seq<Selection>)
    ensures FirstRefused(Arguments(ts), max, FirstError([], max, ts, {}))
    decreases ts
  {
    if ts != [] {
      FirstInDocumentOrderOf(max, ts[0]);
      FirstInDocumentOrder(max, ts[1..]);
      RefusedInOrder(
        ArgumentsOf(ts[0]), Arguments(ts[1..]), max, ErrorOf([], max, ts[0], {}), FirstError([], max, ts[1..], {}));
    }
  }

  lemma {:induction false} FirstInDocumentOrderOf(max: int, t: Selection)
    ensures FirstRefused(ArgumentsOf(t), max, ErrorOf([], max, t, {}))
    decreases t
  {
    match t
    case Field(first, sub) =>
      FirstInDocumentOrder(max, sub);
      assert FieldError(first, max).Some? ==> RefusedAt([first], max, 0, FieldError(first, max));
      RefusedInOrder([first], Arguments(sub), max, FieldError(first, max), FirstError([], max, sub, {}));
    case InlineFragment(sub) => FirstInDocumentOrder(max, sub);
    case FragmentSpread(_) =>
  }

  // No chain from ss enters a fragment of visited, or any fragment twice: section 5.5.2.2 of the GraphQL specification.
  ghost predicate Acyclic(doc: Document, ss: seq<Selection>, visited: set<string>)
  {
    forall chain :: IsChain(doc, ss, chain) ==> Simple(doc, chain, visited)
  }

  lemma AcyclicBelow(doc: Document, ss: seq<Selection>, s: Selection, visited: set<string>)
    requires Acyclic(doc, ss, visited) && s in ss
    ensures Acyclic(doc, Children(doc, s), Visit(doc, s, visited))
    ensures Enters(doc, s) ==> s.name !in visited
  {
    assert IsChain(doc, ss, [s]);
    assert Enters(doc, s) ==> Enters(doc, [s][0]);
    forall chain | IsChain(doc, Children(doc, s), chain) ensures Simple(doc, chain, Visit(doc, s, visited)) {
      var c := [s] + chain;
      assert c[1..] == chain;
      assert IsChain(doc, ss, c);
      SimpleTail(doc, c, visited);
    }
  }

  lemma AcyclicRest(doc: Document, ss: seq<Selection>, visited: set<string>)
    requires Acyclic(doc, ss, visited) && ss != []
    ensures Acyclic(doc, ss[1..], visited)
  {
    forall chain | IsChain(doc, ss[1..], chain) ensures Simple(doc, chain, visited) {
      assert IsChain(doc, ss, chain);
    }
  }

  lemma {:induction false} AcyclicInlines(doc: Document, ss: seq<Selection>, visited: set<string>)
    returns (ts: seq<Selection>)
    requires Acyclic(doc, ss, visited)
    ensures IsInlining(doc, ss, ts)
    decreases Names(doc) - visited, ss
  {
    ts := [];
    if ss != [] {
      var s := ss[0];
      var t := s;
      AcyclicBelow(doc, ss, s, visited);
      if !s.FragmentSpread? || Enters(doc, s) {
        var sub := AcyclicInlines(doc, Children(doc, s), Visit(doc, s, visited));
        t := if s.Field? then Field(s.first, sub) else InlineFragment(sub);
      }
      AcyclicRest(doc, ss, visited);
      var rest := AcyclicInlines(doc, ss[1..], visited);
      ts := [t] + rest;
      assert ts[1..] == rest;
    }
  }

  lemma {:induction false} InlinedIsSimple(
    doc: Document, ss: seq<Selection>, ts: seq<Selection>, visited: set<string>, trees: map<string, seq<Selection>>,
    chain: seq<Selection>)
    requires IsInlining(doc, ss, ts) && Ancestors(doc, visited, trees, Size(ts)) && IsChain(doc, ss, chain)
    ensures Simple(doc, chain, visited)
    decreases |chain|
  {
    if chain != [] {
      var s := chain[0];
      var t := InlinedMember(doc, ss, ts, s);
      if Enters(doc, s) {
        NotVisited(doc, visited, trees, s.name, t, SizeOf(t));
        InlinedIsSimple(
          doc, Children(doc, s), t.selections, visited + {s.name}, trees[s.name := t.selections], chain[1..]);
      } else if !s.FragmentSpread? {
        InlinedIsSimple(doc, Children(doc, s), t.selections, visited, trees, chain[1..]);
      }
      SimpleCons(doc, s, chain[1..], visited);
      assert chain == [s] + chain[1..];
    }
  }

  lemma {:induction false} InlinedMember(doc: Document, ss: seq<Selection>, ts: seq<Selection>, s: Selection)
    returns (t: Selection)
    requires IsInlining(doc, ss, ts) && s in ss
    ensures Inlines(doc, s, t) && SizeOf(t) <= Size(ts)
  {
    if s == ss[0] { t := ts[0]; } else { t := InlinedMember(doc, ss[1..], ts[1..], s); }
  }

  ghost predicate Inlinable(doc: Document, ss: seq<Selection>) { exists ts :: IsInlining(doc, ss, ts) }

  // The fragments of an operation can be written out exactly when no chain from it enters a fragment twice.
  lemma InlinableIffAcyclic(doc: Document, operation: seq<Selection>)
    ensures Inlinable(doc, operation) <==> Acyclic(doc, operation, {})
  {
    if Acyclic(doc, operation, {}) {
      var ts := AcyclicInlines(doc, operation, {});
    }
    if Inlinable(doc, operation) {
      var ts :| IsInlining(doc, operation, ts);
      forall chain | IsChain(doc, operation, chain) ensures Simple(doc, chain, {}) {
        InlinedIsSimple(doc, operation, ts, {}, map[], chain);
      }
    }
  }
}
