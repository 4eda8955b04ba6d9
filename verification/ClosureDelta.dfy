/** The closure proof: two trees may differ only in registered status values. */
module ClosureDelta {
  import opened Text
  import opened PlanScan
  import opened Splice
  import opened Rewrite
  import opened ClosureTree
  import opened Order
  import opened ScanOrder
  import opened Holes
  import opened Sorting

  datatype Refusal = Paths | Mode | Content | Vocabulary | Agreement | TreeFault

  datatype Change = Change(path: string, kind: Kind, milestone: Option<string>, row: Option<(nat, nat)>,
                           ticket: Option<string>, oldValue: string, newValue: string)

  datatype Outcome = Accepted(changes: seq<Change>) | Refused(kind: Refusal, path: string)

  datatype Agrees = Holds | Violated | Throws

  /** What the comparison is given besides the two trees: the plan grammar, the frontmatter reader,
      the registered sources, and the agreement rules over a whole tree. */
  datatype Context = Context(g: Grammar, read: Reader, registry: Registry, agreement: Tree -> Agrees)

  datatype Modes = Modes(before: map<string, string>, after: map<string, string>)

  predicate ModeKept(modes: Option<Modes>, path: string) {
    modes.Some? ==>
      path in modes.value.before && path in modes.value.after && modes.value.before[path] == modes.value.after[path]
  }

  // ----- one file

  datatype FileCheck = Fine(changes: seq<Change>) | Bad(kind: Refusal)

  predicate Allowed(kind: Kind, value: string) {
    if kind == State then IsState(value) else value == "" || value == "wip" || value == "x"
  }

  function ChangeOf(path: string, was: Mark, now: Mark): Change {
    Change(path, now.kind, now.milestone, now.row, now.ticket, was.value, now.value)
  }

  function Compared(path: string, was: seq<Mark>, now: seq<Mark>): FileCheck
    decreases |now|
  {
    if was == [] || now == [] then Fine([])
    else if was[0].value == now[0].value then Compared(path, was[1..], now[1..])
    else if !Allowed(now[0].kind, now[0].value) then Bad(Vocabulary)
    else
      match Compared(path, was[1..], now[1..])
      case Bad(kind) => Bad(kind)
      case Fine(rest) => Fine([ChangeOf(path, was[0], now[0])] + rest)
  }

  function MarksOf(c: Context, path: string, text: string): Option<seq<Mark>> {
    if IsPlan(c.registry, path) then Some(PlanMarks(c.g, text))
    else TicketMarks(c.read, text, IsLight(c.registry, path))
  }

  predicate Registered(c: Context, path: string) {
    IsPlan(c.registry, path) || IsTicket(c.registry, path) || IsLight(c.registry, path)
  }

  function TextCheck(c: Context, path: string, left: string, right: string): FileCheck {
    var was, now := MarksOf(c, path, left), MarksOf(c, path, right);
    if was.None? || now.None? then Bad(TreeFault)
    else if Gaps(left, Edits(was.value), 0) != Gaps(right, Edits(now.value), 0) then Bad(Content)
    else Compared(path, was.value, now.value)
  }

  function Check(c: Context, before: Tree, after: Tree, path: string): FileCheck
    requires path in before && path in after
  {
    if before[path] == after[path] then Fine([])
    else if !Registered(c, path) then Bad(Content)
    else if TreeText(before, path).None? || TreeText(after, path).None? then Bad(TreeFault)
    else TextCheck(c, path, before[path].text, after[path].text)
  }

  // ----- the whole tree, path by path

  function FirstUnpaired(before: Tree, after: Tree, modes: Option<Modes>, paths: seq<string>): (r: Option<Outcome>)
    ensures r.Some? ==> r.value.Refused?
  {
    if paths == [] then None
    else if paths[0] !in before || paths[0] !in after then Some(Refused(Paths, paths[0]))
    else if !ModeKept(modes, paths[0]) then Some(Refused(Mode, paths[0]))
    else FirstUnpaired(before, after, modes, paths[1..])
  }

  function Checked(c: Context, before: Tree, after: Tree, paths: seq<string>): Outcome
    requires forall p :: p in paths ==> p in before && p in after
  {
    if paths == [] then Accepted([])
    else
      match Check(c, before, after, paths[0])
      case Bad(kind) => Refused(kind, paths[0])
      case Fine(changes) =>
        match Checked(c, before, after, paths[1..])
        case Refused(kind, path) => Refused(kind, path)
        case Accepted(rest) => Accepted(changes + rest)
  }

  lemma {:induction false} PairedOrNot(before: Tree, after: Tree, modes: Option<Modes>, paths: seq<string>)
    ensures FirstUnpaired(before, after, modes, paths).None? <==>
      forall p :: p in paths ==> p in before && p in after && ModeKept(modes, p)
  {
    if paths != [] { PairedOrNot(before, after, modes, paths[1..]); }
  }

  /** The whole proof over a listing of the paths. A violated agreement is reported at a plan path, which is not modelled. */
  function Delta(c: Context, before: Tree, after: Tree, modes: Option<Modes>, paths: seq<string>): Outcome {
    match FirstUnpaired(before, after, modes, paths)
    case Some(refusal) => refusal
    case None =>
      PairedOrNot(before, after, modes, paths);
      match Checked(c, before, after, paths)
      case Refused(kind, path) => Refused(kind, path)
      case Accepted(changes) =>
        match c.agreement(after)
        case Holds => Accepted(changes)
        case Violated => Refused(Agreement, "")
        case Throws => Refused(TreeFault, "")
  }

  /** The value comparison of one file, pushing a change for each value that differs. */
  method CompareValues(path: string, was: seq<Mark>, now: seq<Mark>) returns (r: FileCheck)
    requires |was| == |now|
    ensures r == Compared(path, was, now)
  {
    var found := [];
    for index := 0 to |now|
      invariant Compared(path, was, now) == After(found, Compared(path, was[index..], now[index..]))
    {
      assert was[index..][1..] == was[index + 1..] && now[index..][1..] == now[index + 1..];
      if was[index].value != now[index].value {
        if !Allowed(now[index].kind, now[index].value) { return Bad(Vocabulary); }
        found := found + [ChangeOf(path, was[index], now[index])];
      }
    }
    assert now[|now|..] == [];
    return Fine(found);
  }

  ghost function After(found: seq<Change>, rest: FileCheck): FileCheck {
    match rest
    case Bad(kind) => Bad(kind)
    case Fine(changes) => Fine(found + changes)
  }

  /** One path of the comparison loop. */
  method CheckFile(c: Context, before: Tree, after: Tree, path: string) returns (r: FileCheck)
    requires path in before && path in after
    ensures r == Check(c, before, after, path)
  {
    if before[path] == after[path] { return Fine([]); }
    if !Registered(c, path) { return Bad(Content); }
    var left, right := TreeText(before, path), TreeText(after, path);
    if left.None? || right.None? { return Bad(TreeFault); }
    var was, now := MarksOf(c, path, left.value), MarksOf(c, path, right.value);
    if was.None? || now.None? { return Bad(TreeFault); }
    var same := SameOutsideValues(left.value, right.value, Edits(was.value), Edits(now.value));
    if !same { return Bad(Content); }
    r := CompareValues(path, was.value, now.value);
  }

  /** closureDelta. */
  method ClosureDelta(c: Context, before: Tree, after: Tree, modes: Option<Modes>) returns (r: Outcome)
    ensures exists paths :: Lists(paths, before.Keys + after.Keys) && r == Delta(c, before, after, modes, paths)
  {
    var paths := SortedKeys(before.Keys + after.Keys);
    for i := 0 to |paths|
      invariant FirstUnpaired(before, after, modes, paths) == FirstUnpaired(before, after, modes, paths[i..])
    {
      var path := paths[i];
      assert paths[i..][1..] == paths[i + 1..];
      if path !in before || path !in after { return Refused(Paths, path); }
      if !ModeKept(modes, path) { return Refused(Mode, path); }
    }
    assert paths[|paths|..] == [];
    PairedOrNot(before, after, modes, paths);
    r := CheckPaths(c, before, after, paths);
    if r.Accepted? {
      match c.agreement(after)
      case Holds =>
      case Violated => r := Refused(Agreement, "");
      case Throws => r := Refused(TreeFault, "");
    }
  }

  method CheckPaths(c: Context, before: Tree, after: Tree, paths: seq<string>) returns (r: Outcome)
    requires forall p :: p in paths ==> p in before && p in after
    ensures r == Checked(c, before, after, paths)
  {
    hide Check;
    var changes := [];
    for i := 0 to |paths|
      invariant Extended(changes, Checked(c, before, after, paths[i..])) == Checked(c, before, after, paths)
    {
      assert paths[i..][1..] == paths[i + 1..];
      var check := CheckFile(c, before, after, paths[i]);
      if check.Bad? { return Refused(check.kind, paths[i]); }
      changes := changes + check.changes;
    }
    assert paths[|paths|..] == [];
    return Accepted(changes);
  }

  ghost function Extended(found: seq<Change>, rest: Outcome): Outcome {
    match rest
    case Refused(kind, path) => Refused(kind, path)
    case Accepted(changes) => Accepted(found + changes)
  }
}
