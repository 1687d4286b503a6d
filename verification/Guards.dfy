/** The request guards (internal/adapters/graphql/guards.go): two traversals of a selection tree whose fragment
    spreads may form cycles, sharing a visited set that holds the fragments of the current path. */
module Guards {
  import opened Wrappers

  // The dynamic types that intValue tells apart. A string carries what strconv.Atoi says of it.
  datatype GoValue = IntValue(i: int) | FloatValue(r: real) | StringValue(parsed: Option<int>) | OtherValue

  // The argument called "first": not given, not evaluable, or evaluated against the variables.
  datatype Argument = Absent | Failing | Evaluated(value: GoValue)

  datatype Selection =
    | Field(first: Argument, selections: seq<Selection>)
    | InlineFragment(selections: seq<Selection>)
    | FragmentSpread(name: string)

  datatype Fragment = Fragment(name: string, selections: seq<Selection>)

  type Document = seq<Fragment>

  datatype GuardError = GuardError(message: string, code: string)

  const INVALID := GuardError("invalid pagination argument", "GRAPHQL_PAGINATION_INVALID")
  const NOT_POSITIVE := GuardError("first must be greater than zero", "GRAPHQL_PAGINATION_INVALID")
  const TOO_LARGE := GuardError("first exceeds the configured maximum", "GRAPHQL_PAGINATION_LIMIT")
  const TOO_DEEP := GuardError("query depth exceeds the configured limit", "GRAPHQL_DEPTH_LIMIT")

  function Names(doc: Document): set<string> { set f | f in doc :: f.name }

  // FragmentDefinitionList.ForName: the first fragment of that name.
  function ForName(doc: Document, name: string): (r: Option<seq<Selection>>)
    ensures r.Some? ==> name in Names(doc)
  {
    if doc == [] then None
    else if doc[0].name == name then Some(doc[0].selections)
    else
      var r := ForName(doc[1..], name);
      assert Names(doc[1..]) <= Names(doc);
      r
  }

  predicate Defined(doc: Document, name: string) { ForName(doc, name).Some? }

  function Max(a: int, b: int): int { if a > b then a else b }

  // int(typed) on a float truncates toward zero.
  function IntOf(value: GoValue): Option<int>
  {
    match value
    case IntValue(i) => Some(i)
    case FloatValue(r) => Some(if r >= 0.0 then r.Floor else -((-r).Floor))
    case StringValue(parsed) => parsed
    case OtherValue => None
  }

  // validateFieldFirstArgument
  function FieldError(first: Argument, maxPageSize: int): Option<GuardError>
  {
    match first
    case Absent => None
    case Failing => Some(INVALID)
    case Evaluated(value) =>
      if IntOf(value).None? || IntOf(value).value <= 0 then Some(NOT_POSITIVE)
      else if IntOf(value).value > maxPageSize then Some(TOO_LARGE)
      else None
  }

  // How many levels the selections open below the current one, with the fragments in visited cut.
  function Height(doc: Document, ss: seq<Selection>, visited: set<string>): nat
    decreases Names(doc) - visited, ss
  {
    if ss == [] then 0 else Max(HeightOf(doc, ss[0], visited), Height(doc, ss[1..], visited))
  }

  function HeightOf(doc: Document, s: Selection, visited: set<string>): nat
    decreases Names(doc) - visited, s
  {
    match s
    case Field(_, sub) => if sub == [] then 0 else 1 + Height(doc, sub, visited)
    case InlineFragment(sub) => 1 + Height(doc, sub, visited)
    case FragmentSpread(name) =>
      if name in visited || !Defined(doc, name) then 0
      else 1 + Height(doc, ForName(doc, name).value, visited + {name})
  }

  // The first error of the traversal, in document order.
  function FirstError(doc: Document, max: int, ss: seq<Selection>, visited: set<string>): Option<GuardError>
    decreases Names(doc) - visited, ss
  {
    if ss == [] then None
    else
      var e := ErrorOf(doc, max, ss[0], visited);
      if e.Some? then e else FirstError(doc, max, ss[1..], visited)
  }

  function ErrorOf(doc: Document, max: int, s: Selection, visited: set<string>): Option<GuardError>
    decreases Names(doc) - visited, s
  {
    match s
    case Field(first, sub) =>
      if FieldError(first, max).Some? then FieldError(first, max) else FirstError(doc, max, sub, visited)
    case InlineFragment(sub) => FirstError(doc, max, sub, visited)
    case FragmentSpread(name) =>
      if name in visited || !Defined(doc, name) then None
      else FirstError(doc, max, ForName(doc, name).value, visited + {name})
  }

  // The visited map, shared by all calls of one traversal.
  class Visited {
    var names: set<string>

    constructor ()
      ensures names == {}
    {
      names := {};
    }
  }

  /** Terminates on every document, cyclic ones included, and leaves visited as it found it. */
  method SelectionDepth(ss: seq<Selection>, doc: Document, currentDepth: int, visited: Visited) returns (maxDepth: int)
    modifies visited
    ensures visited.names == old(visited.names)
    ensures maxDepth == currentDepth + Height(doc, ss, old(visited.names))
    decreases Names(doc) - visited.names, ss
  {
    maxDepth := currentDepth;
    for i := 0 to |ss|
      invariant visited.names == old(visited.names)
      invariant maxDepth >= currentDepth
      invariant currentDepth + Height(doc, ss, visited.names)
        == Max(maxDepth, currentDepth + Height(doc, ss[i..], visited.names))
    {
      assert ss[i..][1..] == ss[i + 1..];
      match ss[i] {
        case Field(_, sub) =>
          var childDepth := currentDepth;
          if |sub| > 0 {
            childDepth := SelectionDepth(sub, doc, currentDepth + 1, visited);
          }
          if childDepth > maxDepth {
            maxDepth := childDepth;
          }
        case InlineFragment(sub) =>
          var childDepth := SelectionDepth(sub, doc, currentDepth + 1, visited);
          if childDepth > maxDepth {
            maxDepth := childDepth;
          }
        case FragmentSpread(name) =>
          if name in visited.names {
            continue;
          }
          var fragment := ForName(doc, name);
          if fragment.None? {
            continue;
          }
          visited.names := visited.names + {name};
          var childDepth := SelectionDepth(fragment.value, doc, currentDepth + 1, visited);
          visited.names := visited.names - {name};
          if childDepth > maxDepth {
            maxDepth := childDepth;
          }
      }
    }
  }

  method ValidateSelectionSet(ss: seq<Selection>, doc: Document, maxPageSize: int, visited: Visited)
    returns (err: Option<GuardError>)
    modifies visited
    ensures visited.names == old(visited.names)
    ensures err == FirstError(doc, maxPageSize, ss, old(visited.names))
    decreases Names(doc) - visited.names, ss, 1
  {
    for i := 0 to |ss|
      invariant visited.names == old(visited.names)
      invariant FirstError(doc, maxPageSize, ss, visited.names) == FirstError(doc, maxPageSize, ss[i..], visited.names)
    {
      assert ss[i..][1..] == ss[i + 1..];
      err := ValidateSelection(ss[i], doc, maxPageSize, visited);
      if err.Some? {
        return;
      }
    }
    return None;
  }

  method ValidateSelection(s: Selection, doc: Document, maxPageSize: int, visited: Visited)
    returns (err: Option<GuardError>)
    modifies visited
    ensures visited.names == old(visited.names)
    ensures err == ErrorOf(doc, maxPageSize, s, old(visited.names))
    decreases Names(doc) - visited.names, s, 1
  {
    match s {
      case Field(first, sub) =>
        err := FieldError(first, maxPageSize);
        if err.Some? {
          return;
        }
        err := ValidateSelectionSet(sub, doc, maxPageSize, visited);
      case InlineFragment(sub) =>
        err := ValidateSelectionSet(sub, doc, maxPageSize, visited);
      case FragmentSpread(name) =>
        err := ValidateFragment(name, doc, maxPageSize, visited);
    }
  }

  // validateFragmentFirstArgument; the deferred delete runs on every exit.
  method ValidateFragment(name: string, doc: Document, maxPageSize: int, visited: Visited)
    returns (err: Option<GuardError>)
    modifies visited
    ensures visited.names == old(visited.names)
    ensures err == ErrorOf(doc, maxPageSize, FragmentSpread(name), old(visited.names))
    decreases Names(doc) - visited.names, FragmentSpread(name), 0
  {
    if name in visited.names {
      return None;
    }
    var fragment := ForName(doc, name);
    if fragment.None? {
      return None;
    }
    visited.names := visited.names + {name};
    err := ValidateSelectionSet(fragment.value, doc, maxPageSize, visited);
    visited.names := visited.names - {name};
  }

  // What the guard answers.
  function Verdict(operation: seq<Selection>, doc: Document, maxDepth: int, maxPageSize: int): Option<GuardError>
  {
    if maxDepth > 0 && 1 + Height(doc, operation, {}) > maxDepth then Some(TOO_DEEP)
    else if maxPageSize > 0 then FirstError(doc, maxPageSize, operation, {})
    else None
  }

  // guardMiddleware: the depth limit first, then the page sizes; a limit that is not positive is off.
  method Guard(operation: seq<Selection>, doc: Document, maxDepth: int, maxPageSize: int)
    returns (err: Option<GuardError>)
    ensures err == Verdict(operation, doc, maxDepth, maxPageSize)
  {
    if maxDepth > 0 {
      var visited := new Visited();
      var depth := SelectionDepth(operation, doc, 1, visited);
      if depth > maxDepth {
        return Some(TOO_DEEP);
      }
    }
    if maxPageSize <= 0 {
      return None;
    }
    var visited := new Visited();
    err := ValidateSelectionSet(operation, doc, maxPageSize, visited);
  }
}
