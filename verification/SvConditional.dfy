/** Conditional compilation: the line-by-line branch-selection stack machine against the
    recursive meaning of `ifdef chains in section 22.6 of IEEE 1800-2017. */
module SvConditional {

  datatype Kind = Ifdef | Ifndef | Elsif | Else | Endif | Define | Undef

  /** A source line: plain text, or a directive with the name behind it ("" when absent). */
  datatype Line = Text(text: string) | Directive(kind: Kind, name: string)

  /** Parent active, some branch already taken, current branch active. */
  datatype Frame = Frame(parentActive: bool, branchTaken: bool, active: bool)

  datatype Machine = Machine(macros: set<string>, output: seq<string>, stack: seq<Frame>)

  function Active(stack: seq<Frame>): bool {
    stack == [] || stack[|stack|-1].active
  }

  function Step(m: Machine, line: Line): Machine {
    var active := Active(m.stack);
    match line
    case Text(text) => if active then m.(output := m.output + [text]) else m
    case Directive(kind, name) =>
      match kind
      case Define => if active && name != "" then m.(macros := m.macros + {name}) else m
      case Undef => if active && name != "" then m.(macros := m.macros - {name}) else m
      case Ifdef => m.(stack := m.stack + [Frame(active, name in m.macros, active && name in m.macros)])
      case Ifndef => m.(stack := m.stack + [Frame(active, name !in m.macros, active && name !in m.macros)])
      case Elsif =>
        if m.stack == [] then m
        else
          var top := m.stack[|m.stack|-1];
          var matched := !top.branchTaken && name in m.macros;
          m.(stack := m.stack[..|m.stack|-1] + [Frame(top.parentActive, top.branchTaken || matched, top.parentActive
            && matched)])
      case Else =>
        if m.stack == [] then m
        else
          var top := m.stack[|m.stack|-1];
          m.(stack := m.stack[..|m.stack|-1] + [Frame(top.parentActive, true, top.parentActive && !top.branchTaken)])
      case Endif => if m.stack == [] then m else m.(stack := m.stack[..|m.stack|-1])
  }

  function Run(m: Machine, lines: seq<Line>): Machine
    decreases |lines|
  {
    if lines == [] then m else Run(Step(m, lines[0]), lines[1..])
  }

  method ApplyConditionalDirectives(lines: seq<Line>, definedMacros: set<string>)
    returns (output: seq<string>, macros: set<string>)
    ensures var m := Run(Machine(definedMacros, [], []), lines); output == m.output && macros == m.macros
  {
    macros := definedMacros;
    output := [];
    var stack: seq<Frame> := [];
    var i := 0;
    assert lines[0..] == lines;
    while i < |lines|
      invariant 0 <= i <= |lines|
      invariant Run(Machine(definedMacros, [], []), lines) == Run(Machine(macros, output, stack), lines[i..])
    {
      var line := lines[i];
      assert lines[i..][0] == line && lines[i..][1..] == lines[i+1..];
      i := i + 1;
      var active := if stack != [] then stack[|stack|-1].active else true;
      match line {
        case Text(text) =>
          if active { output := output + [text]; }
        case Directive(kind, name) =>
          if kind.Define? || kind.Undef? {
            if active && name != "" {
              macros := if kind.Define? then macros + {name} else macros - {name};
            }
          } else if kind.Ifdef? || kind.Ifndef? {
            var matched := if kind.Ifndef? then name !in macros else name in macros;
            stack := stack + [Frame(active, matched, active && matched)];
          } else if stack != [] {
            var top := stack[|stack|-1];
            var below := stack[..|stack|-1];
            if kind.Elsif? {
              var matched := !top.branchTaken && name in macros;
              stack := below + [Frame(top.parentActive, top.branchTaken || matched, top.parentActive && matched)];
            } else if kind.Else? {
              stack := below + [Frame(top.parentActive, true, top.parentActive && !top.branchTaken)];
            } else {
              stack := below;
            }
          }
      }
    }
  }

  // The recursive meaning

  /** A guard of a branch: a macro that must be defined, one that must not be, or none. */
  datatype Guard = IfDefined(name: string) | IfUndefined(name: string) | Otherwise

  /** Text, a definition, or a chain of guarded branches.  A list of items is a cons list so
      that branches nest structurally. */
  datatype Item = Plain(text: string) | Defining(name: string) | Undefining(name: string) | Chain(branches: Branches)

  datatype Items = Nil | Cons(head: Item, tail: Items)

  datatype Branches = Last | Branch(guard: Guard, body: Items, rest: Branches)

  /** A chain opens with an `ifdef or `ifndef; every later branch is an `elsif or an `else. */
  predicate WellFormedRest(branches: Branches) {
    match branches
    case Last => true
    case Branch(guard, body, rest) => !guard.IfUndefined? && WellFormedItems(body) && WellFormedRest(rest)
  }

  predicate WellFormedItem(item: Item) {
    match item
    case Chain(branches) =>
      branches.Branch? && !branches.guard.Otherwise? && WellFormedItems(branches.body) && WellFormedRest(branches.rest)
    case _ => true
  }

  predicate WellFormedItems(items: Items) {
    match items
    case Nil => true
    case Cons(head, tail) => WellFormedItem(head) && WellFormedItems(tail)
  }

  // Printing

  function Opening(guard: Guard): Line {
    match guard
    case IfDefined(name) => Directive(Ifdef, name)
    case IfUndefined(name) => Directive(Ifndef, name)
    case Otherwise => Directive(Else, "")
  }

  function Continuing(guard: Guard): Line {
    match guard
    case IfDefined(name) => Directive(Elsif, name)
    case IfUndefined(name) => Directive(Ifndef, name)
    case Otherwise => Directive(Else, "")
  }

  function ItemLines(item: Item): seq<Line> {
    match item
    case Plain(text) => [Text(text)]
    case Defining(name) => [Directive(Define, name)]
    case Undefining(name) => [Directive(Undef, name)]
    case Chain(branches) =>
      match branches
      case Last => []
      case Branch(guard, body, rest) => [Opening(guard)] + ItemsLines(body) + RestLines(rest) + [Directive(Endif, "")]
  }

  function RestLines(branches: Branches): seq<Line> {
    match branches
    case Last => []
    case Branch(guard, body, rest) => [Continuing(guard)] + ItemsLines(body) + RestLines(rest)
  }

  function ItemsLines(items: Items): seq<Line> {
    match items
    case Nil => []
    case Cons(head, tail) => ItemLines(head) + ItemsLines(tail)
  }

  // Selection

  datatype Selected = Selected(output: seq<string>, macros: set<string>)

  predicate Holds(guard: Guard, macros: set<string>) {
    match guard
    case IfDefined(name) => name in macros
    case IfUndefined(name) => name !in macros
    case Otherwise => true
  }

  function SelectItem(item: Item, macros: set<string>): Selected {
    match item
    case Plain(text) => Selected([text], macros)
    case Defining(name) => Selected([], if name != "" then macros + {name} else macros)
    case Undefining(name) => Selected([], if name != "" then macros - {name} else macros)
    case Chain(branches) => SelectBranch(branches, macros)
  }

  /** The first branch whose guard holds is selected, and no other contributes anything. */
  function SelectBranch(branches: Branches, macros: set<string>): Selected {
    match branches
    case Last => Selected([], macros)
    case Branch(guard, body, rest) => if Holds(guard, macros) then SelectItems(body, macros)
        else SelectBranch(rest, macros)
  }

  function SelectItems(items: Items, macros: set<string>): Selected {
    match items
    case Nil => Selected([], macros)
    case Cons(head, tail) =>
      var first := SelectItem(head, macros);
      var later := SelectItems(tail, first.macros);
      Selected(first.output + later.output, later.macros)
  }

  // Every text, well-nested or not

  predicate Closes(line: Line) {
    line.Directive? && (line.kind.Elsif? || line.kind.Else? || line.kind.Endif?)
  }

  predicate AtCloser(lines: seq<Line>) {
    lines == [] || Closes(lines[0])
  }

  /** Reads items up to a line that closes a branch, or up to the end of the text. */
  function ParseItems(lines: seq<Line>): (r: (Items, seq<Line>))
    ensures |r.1| <= |lines| && AtCloser(r.1)
    ensures WellFormedItems(r.0)
    decreases |lines|, 1
  {
    if AtCloser(lines) then (Nil, lines)
    else
      var (item, later) := ParseItem(lines[0], lines[1..]);
      var (items, rest) := ParseItems(later);
      (Cons(item, items), rest)
  }

  function ParseItem(line: Line, lines: seq<Line>): (r: (Item, seq<Line>))
    requires !Closes(line)
    ensures |r.1| <= |lines|
    ensures WellFormedItem(r.0)
    decreases |lines|, 3
  {
    match line
    case Text(text) => (Plain(text), lines)
    case Directive(kind, name) =>
      if kind.Define? then (Defining(name), lines)
      else if kind.Undef? then (Undefining(name), lines)
      else
        var (body, atRest) := ParseItems(lines);
        var (branches, rest) := ParseRest(atRest);
        (Chain(Branch(if kind.Ifdef? then IfDefined(name) else IfUndefined(name), body, branches)), rest)
  }

  /** Reads the later branches of a chain; a chain left open closes at the end of the text. */
  function ParseRest(lines: seq<Line>): (r: (Branches, seq<Line>))
    requires AtCloser(lines)
    ensures |r.1| <= |lines|
    ensures WellFormedRest(r.0)
    decreases |lines|, 0
  {
    if lines == [] then (Last, [])
    else if lines[0].kind.Endif? then (Last, lines[1..])
    else
      var (body, atRest) := ParseItems(lines[1..]);
      var (branches, rest) := ParseRest(atRest);
      (Branch(if lines[0].kind.Elsif? then IfDefined(lines[0].name) else Otherwise, body, branches), rest)
  }

  function Append(a: Items, b: Items): (r: Items)
    ensures WellFormedItems(a) && WellFormedItems(b) ==> WellFormedItems(r)
  {
    match a case Nil => b case Cons(head, tail) => Cons(head, Append(tail, b))
  }

  /** The document of a text: closing lines outside every chain are dropped. */
  function ParseText(lines: seq<Line>): (items: Items)
    ensures WellFormedItems(items)
    decreases |lines|
  {
    var (items, rest) := ParseItems(lines);
    if rest == [] then items else Append(items, ParseText(rest[1..]))
  }

  /** What a caller of the machine gets to see. */
  function Result(m: Machine): Selected {
    Selected(m.output, m.macros)
  }

  function Advance(m: Machine, selected: Selected): Machine {
    if Active(m.stack) then m.(output := m.output + selected.output, macros := selected.macros) else m
  }

  lemma {:induction false} AdvanceTwice(m: Machine, head: Item, tail: Items)
    ensures var next := Advance(m, SelectItem(head, m.macros));
            Advance(next, SelectItems(tail, next.macros)) == Advance(m, SelectItems(Cons(head, tail), m.macros))
  {
    var first := SelectItem(head, m.macros);
    var later := SelectItems(tail, first.macros);
    assert m.output + first.output + later.output == m.output + (first.output + later.output);
  }

  lemma {:induction false} ParsedItemsRefine(m: Machine, lines: seq<Line>)
    ensures var (items, rest) := ParseItems(lines);
            Result(Run(m, lines)) == Result(Run(Advance(m, SelectItems(items, m.macros)), rest))
    decreases |lines|, 1
  {
    if AtCloser(lines) {
      assert m.output + [] == m.output;
    } else {
      var (item, later) := ParseItem(lines[0], lines[1..]);
      ParsedItemRefines(m, lines[0], lines[1..]);
      var next := Advance(m, SelectItem(item, m.macros));
      ParsedItemsRefine(next, later);
      AdvanceTwice(m, item, ParseItems(later).0);
      assert [lines[0]] + lines[1..] == lines;
    }
  }

  lemma {:induction false} ParsedItemRefines(m: Machine, line: Line, lines: seq<Line>)
    requires !Closes(line)
    ensures var (item, later) := ParseItem(line, lines);
            Result(Run(m, [line] + lines)) == Result(Run(Advance(m, SelectItem(item, m.macros)), later))
    decreases |lines|, 3
  {
    assert ([line] + lines)[1..] == lines;
    assert m.output + [] == m.output;
    if line.Directive? && (line.kind.Ifdef? || line.kind.Ifndef?) {
      ParsedChainRefines(m, line, lines);
    }
  }

  lemma {:induction false} ParsedChainRefines(m: Machine, line: Line, lines: seq<Line>)
    requires line.Directive? && (line.kind.Ifdef? || line.kind.Ifndef?)
    ensures var (item, later) := ParseItem(line, lines);
            Result(Run(Step(m, line), lines)) == Result(Run(Advance(m, SelectItem(item, m.macros)), later))
    decreases |lines|, 2
  {
    hide Run;
    var begun := Step(m, line);
    var active := Active(m.stack);
    var (body, atRest) := ParseItems(lines);
    ParsedItemsRefine(begun, lines);
    var afterBody := Advance(begun, SelectItems(body, m.macros));
    var taken := begun.stack[|begun.stack|-1].branchTaken;
    assert begun.stack[..|begun.stack|-1] == m.stack;
    ParsedRestRefines(afterBody, m.stack, active, taken, atRest);
    assert m.output + [] == m.output;
  }

  lemma {:induction false} ParsedRestRefines(m: Machine, below: seq<Frame>, active: bool, taken: bool, lines: seq<Line>)
    requires AtCloser(lines)
    requires m.stack != [] && m.stack[..|m.stack|-1] == below
    requires m.stack[|m.stack|-1].parentActive == active && m.stack[|m.stack|-1].branchTaken == taken
    ensures var (branches, rest) := ParseRest(lines);
            var selected := SelectBranch(branches, m.macros);
            var after := if active && !taken then Machine(selected.macros, m.output + selected.output, below)
                         else m.(stack := below);
            Result(Run(m, lines)) == Result(Run(after, rest))
    decreases |lines|, 0
  {
    hide Run, Step, SelectItems;
    assert m.output + [] == m.output;
    if lines == [] {
      RunNothing(m, below);
    } else {
      RunFirst(m, lines);
      CloserStep(m, below, active, taken, lines[0]);
      if !lines[0].kind.Endif? {
        var guard := if lines[0].kind.Elsif? then IfDefined(lines[0].name) else Otherwise;
        var (body, atRest) := ParseItems(lines[1..]);
        var matched := !taken && Holds(guard, m.macros);
        var switched := m.(stack := below + [Frame(active, taken || matched, active && matched)]);
        ParsedItemsRefine(switched, lines[1..]);
        var afterBody := Advance(switched, SelectItems(body, m.macros));
        ParsedRestRefines(afterBody, below, active, taken || matched, atRest);
      }
    }
  }

  lemma {:induction false} RunFirst(m: Machine, lines: seq<Line>)
    requires lines != []
    ensures Run(m, lines) == Run(Step(m, lines[0]), lines[1..])
  {
  }

  lemma {:induction false} RunNothing(m: Machine, below: seq<Frame>)
    ensures Result(Run(m, [])) == Result(m) == Result(Run(m.(stack := below), []))
  {
  }

  /** What a closing line does to the top of the stack. */
  lemma {:induction false} CloserStep(m: Machine, below: seq<Frame>, active: bool, taken: bool, line: Line)
    requires Closes(line)
    requires m.stack != [] && m.stack[..|m.stack|-1] == below
    requires m.stack[|m.stack|-1].parentActive == active && m.stack[|m.stack|-1].branchTaken == taken
    ensures line.kind.Endif? ==> Step(m, line) == m.(stack := below)
    ensures !line.kind.Endif? ==>
              var matched := !taken && Holds(if line.kind.Elsif? then IfDefined(line.name) else Otherwise, m.macros);
              Step(m, line) == m.(stack := below + [Frame(active, taken || matched, active && matched)])
  {
  }

  lemma {:induction false} SelectAppended(a: Items, b: Items, macros: set<string>)
    ensures var first := SelectItems(a, macros);
            var later := SelectItems(b, first.macros);
            SelectItems(Append(a, b), macros) == Selected(first.output + later.output, later.macros)
    decreases a
  {
    match a {
      case Nil => assert [] + SelectItems(b, macros).output == SelectItems(b, macros).output;
      case Cons(head, tail) =>
        var one := SelectItem(head, macros);
        SelectAppended(tail, b, one.macros);
        var two := SelectItems(tail, one.macros);
        var three := SelectItems(b, two.macros);
        assert one.output + (two.output + three.output) == one.output + two.output + three.output;
    }
  }

  lemma {:induction false} TextRefines(m: Machine, lines: seq<Line>)
    requires m.stack == []
    ensures var selected := SelectItems(ParseText(lines), m.macros);
            Result(Run(m, lines)) == Selected(m.output + selected.output, selected.macros)
    decreases |lines|
  {
    hide Run, SelectItems, ParseItems;
    var (items, rest) := ParseItems(lines);
    ParsedItemsRefine(m, lines);
    var next := Advance(m, SelectItems(items, m.macros));
    if rest == [] {
      RunNothing(next, []);
    } else {
      RunFirst(next, rest);
      assert Step(next, rest[0]) == next;
      TextRefines(next, rest[1..]);
      SelectAppended(items, ParseText(rest[1..]), m.macros);
      var first := SelectItems(items, m.macros);
      var later := SelectItems(ParseText(rest[1..]), first.macros);
      assert m.output + (first.output + later.output) == m.output + first.output + later.output;
    }
  }

  /** For every text, also one with stray or missing closing lines, the machine's output and
      macros are the recursive selection of the document it denotes. */
  lemma {:induction false} EveryTextIsSelected(lines: seq<Line>, definedMacros: set<string>)
    ensures Result(Run(Machine(definedMacros, [], []), lines)) == SelectItems(ParseText(lines), definedMacros)
  {
    TextRefines(Machine(definedMacros, [], []), lines);
    var selected := SelectItems(ParseText(lines), definedMacros);
    assert [] + selected.output == selected.output;
  }

  // The document a printed document denotes is itself

  lemma {:induction false} ParsePrintedItems(items: Items, rest: seq<Line>)
    requires WellFormedItems(items) && AtCloser(rest)
    ensures ParseItems(ItemsLines(items) + rest) == (items, rest)
    decreases items
  {
    match items {
      case Nil => assert [] + rest == rest;
      case Cons(head, tail) =>
        var lines := ItemsLines(items) + rest;
        var later := ItemsLines(tail) + rest;
        assert lines == ItemLines(head) + later;
        ParsePrintedItem(head, later);
        ParsePrintedItems(tail, rest);
    }
  }

  lemma {:induction false} ParsePrintedItem(item: Item, later: seq<Line>)
    requires WellFormedItem(item)
    ensures ItemLines(item) != [] && !Closes(ItemLines(item)[0])
    ensures var lines := ItemLines(item) + later;
            ParseItem(lines[0], lines[1..]) == (item, later)
    decreases item
  {
    var lines := ItemLines(item) + later;
    match item {
      case Plain(_) => assert lines[1..] == later;
      case Defining(_) => assert lines[1..] == later;
      case Undefining(_) => assert lines[1..] == later;
      case Chain(branches) =>
        var atRest := RestLines(branches.rest) + ([Directive(Endif, "")] + later);
        assert lines[1..] == ItemsLines(branches.body) + atRest;
        RestStartsWithCloser(branches.rest, later);
        ParsePrintedItems(branches.body, atRest);
        ParsePrintedRest(branches.rest, later);
    }
  }

  lemma {:induction false} RestStartsWithCloser(rest: Branches, later: seq<Line>)
    requires WellFormedRest(rest)
    ensures AtCloser(RestLines(rest) + ([Directive(Endif, "")] + later))
  {
  }

  lemma {:induction false} ParsePrintedRest(rest: Branches, later: seq<Line>)
    requires WellFormedRest(rest)
    ensures AtCloser(RestLines(rest) + ([Directive(Endif, "")] + later))
    ensures ParseRest(RestLines(rest) + ([Directive(Endif, "")] + later)) == (rest, later)
    decreases rest
  {
    RestStartsWithCloser(rest, later);
    var end := [Directive(Endif, "")] + later;
    var lines := RestLines(rest) + end;
    match rest {
      case Last => assert lines == end && end[1..] == later;
      case Branch(guard, body, more) =>
        assert lines[1..] == ItemsLines(body) + (RestLines(more) + end);
        RestStartsWithCloser(more, later);
        ParsePrintedItems(body, RestLines(more) + end);
        ParsePrintedRest(more, later);
    }
  }

  /** Printing a document and reading it back gives the same document. */
  lemma {:induction false} ParseInvertsPrint(items: Items)
    requires WellFormedItems(items)
    ensures ParseText(ItemsLines(items)) == items
  {
    ParsePrintedItems(items, []);
    assert ItemsLines(items) + [] == ItemsLines(items);
  }

  /** For every well-nested document the machine emits exactly the recursive selection and
      ends with its macros. */
  lemma {:induction false} MachineRefinesSelection(items: Items, definedMacros: set<string>)
    requires WellFormedItems(items)
    ensures Result(Run(Machine(definedMacros, [], []), ItemsLines(items))) == SelectItems(items, definedMacros)
  {
    ParseInvertsPrint(items);
    EveryTextIsSelected(ItemsLines(items), definedMacros);
  }
}
