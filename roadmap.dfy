/**
 * The August 2025 development notes: the improved reliability score, the
 * `Checker` and `Theorem` records, and the roadmap object whose checker and
 * theorem lists are appended to and whose items' statuses are updated.
 */
module Roadmap {
  import opened Py
  import Adapter

  /** `_score_reliability` here is the adapter's formula, term for term. */
  function ScoreReliability(urp: map<string, Value>): (r: Result<real>)
    ensures r == Adapter.ScoreReliability(urp)
    ensures r.Ok? ==> 0.0 <= r.value <= 1.0
  {
    Adapter.ScoreReliability(urp)
  }

  datatype Priority = Low | Medium | High | Critical

  datatype Status = Planned | InProgress | Completed | Blocked

  /** The enum member's `value`: 1 to 4. */
  function PriorityValue(p: Priority): (v: int)
    ensures 1 <= v <= 4
  {
    match p
    case Low => 1
    case Medium => 2
    case High => 3
    case Critical => 4
  }

  /** The enum member's `name`, as `to_dict` writes it. */
  function PriorityName(p: Priority): string
  {
    match p
    case Low => "LOW"
    case Medium => "MEDIUM"
    case High => "HIGH"
    case Critical => "CRITICAL"
  }

  /** The enum member's `value`, as `to_dict` writes it. */
  function StatusValue(s: Status): string
  {
    match s
    case Planned => "planned"
    case InProgress => "in_progress"
    case Completed => "completed"
    case Blocked => "blocked"
  }

  /** Distinct members have distinct values, names and serialised forms. */
  lemma EnumsInjective(p: Priority, q: Priority, s: Status, t: Status)
    ensures PriorityValue(p) == PriorityValue(q) <==> p == q
    ensures PriorityName(p) == PriorityName(q) <==> p == q
    ensures StatusValue(s) == StatusValue(t) <==> s == t
  {
  }

  datatype Checker = Checker(
    name: string,
    description: string,
    priority: Priority,
    status: Status,
    dependencies: seq<string>,
    estimatedEffort: Option<string>)

  datatype Theorem = Theorem(
    name: string,
    condition: string,
    statement: string,
    priority: Priority,
    status: Status,
    proofStrategy: Option<string>,
    relatedCheckers: seq<string>)

  /** The dataclass constructor with `__post_init__`: a `None` dependency list becomes `[]`. */
  function NewChecker(name: string, description: string, priority: Priority, status: Status,
                      dependencies: Option<seq<string>>, estimatedEffort: Option<string>): (c: Checker)
    ensures c.name == name && c.description == description && c.priority == priority && c.status == status
    ensures dependencies.None? ==> c.dependencies == []
    ensures dependencies.Some? ==> c.dependencies == dependencies.value
    ensures c.estimatedEffort == estimatedEffort
  {
    Checker(name, description, priority, status, if dependencies.Some? then dependencies.value else [], estimatedEffort)
  }

  /** The dataclass constructor with `__post_init__`: a `None` related-checker list becomes `[]`. */
  function NewTheorem(name: string, condition: string, statement: string, priority: Priority, status: Status,
                      proofStrategy: Option<string>, relatedCheckers: Option<seq<string>>): (t: Theorem)
    ensures t.name == name && t.condition == condition && t.statement == statement
    ensures t.priority == priority && t.status == status && t.proofStrategy == proofStrategy
    ensures relatedCheckers.None? ==> t.relatedCheckers == []
    ensures relatedCheckers.Some? ==> t.relatedCheckers == relatedCheckers.value
  {
    Theorem(name, condition, statement, priority, status, proofStrategy,
            if relatedCheckers.Some? then relatedCheckers.value else [])
  }

  /** `Checker(name, description)` and `Theorem(name, condition, statement)`: MEDIUM, PLANNED, empty lists, no effort or strategy. */
  lemma RecordDefaults(name: string, description: string, condition: string, statement: string)
    ensures var c := NewChecker(name, description, Medium, Planned, None, None);
      c.priority == Medium && c.status == Planned && c.dependencies == [] && c.estimatedEffort.None?
    ensures var t := NewTheorem(name, condition, statement, Medium, Planned, None, None);
      t.priority == Medium && t.status == Planned && t.relatedCheckers == [] && t.proofStrategy.None?
  {
  }

  /** `Checker.to_dict`: six keys, the priority by name and the status by value. */
  function CheckerToDict(c: Checker): (d: map<string, Value>)
    ensures d.Keys == {"name", "description", "priority", "status", "dependencies", "estimated_effort"}
    ensures d["priority"] == Str(PriorityName(c.priority)) && d["status"] == Str(StatusValue(c.status))
    ensures d["estimated_effort"] == (if c.estimatedEffort.Some? then Str(c.estimatedEffort.value) else Null)
  {
    map[
      "name" := Str(c.name),
      "description" := Str(c.description),
      "priority" := Str(PriorityName(c.priority)),
      "status" := Str(StatusValue(c.status)),
      "dependencies" := List(seq(|c.dependencies|, i requires 0 <= i < |c.dependencies| => Str(c.dependencies[i]))),
      "estimated_effort" := if c.estimatedEffort.Some? then Str(c.estimatedEffort.value) else Null]
  }

  /** `Theorem.to_dict`: seven keys, the priority by name and the status by value. */
  function TheoremToDict(t: Theorem): (d: map<string, Value>)
    ensures d.Keys == {"name", "condition", "statement", "priority", "status", "proof_strategy", "related_checkers"}
    ensures d["priority"] == Str(PriorityName(t.priority)) && d["status"] == Str(StatusValue(t.status))
    ensures d["proof_strategy"] == (if t.proofStrategy.Some? then Str(t.proofStrategy.value) else Null)
  {
    map[
      "name" := Str(t.name),
      "condition" := Str(t.condition),
      "statement" := Str(t.statement),
      "priority" := Str(PriorityName(t.priority)),
      "status" := Str(StatusValue(t.status)),
      "proof_strategy" := if t.proofStrategy.Some? then Str(t.proofStrategy.value) else Null,
      "related_checkers" := List(seq(|t.relatedCheckers|, i requires 0 <= i < |t.relatedCheckers| => Str(t.relatedCheckers[i])))]
  }

  /** One entry of the built-in checker table: keys it leaves out are `None`. */
  datatype CheckerData = CheckerData(
    name: string, description: string, priority: Option<Priority>,
    estimatedEffort: Option<string>, dependencies: Option<seq<string>>)

  /** One entry of the built-in theorem table: keys it leaves out are `None`. */
  datatype TheoremData = TheoremData(
    name: string, condition: string, statement: string, priority: Option<Priority>,
    proofStrategy: Option<string>, relatedCheckers: Option<seq<string>>)

  /** A checker built from a table entry: `data.get` with MEDIUM and `[]` as the fallbacks. */
  function CheckerFromData(d: CheckerData): (c: Checker)
    ensures c.name == d.name && c.status == Planned
    ensures c.priority == (if d.priority.Some? then d.priority.value else Medium)
  {
    NewChecker(d.name, d.description, if d.priority.Some? then d.priority.value else Medium, Planned,
               Some(if d.dependencies.Some? then d.dependencies.value else []), d.estimatedEffort)
  }

  /** A theorem built from a table entry: `data.get` with MEDIUM and `[]` as the fallbacks. */
  function TheoremFromData(d: TheoremData): (t: Theorem)
    ensures t.name == d.name && t.status == Planned
    ensures t.priority == (if d.priority.Some? then d.priority.value else Medium)
  {
    NewTheorem(d.name, d.condition, d.statement, if d.priority.Some? then d.priority.value else Medium, Planned,
               d.proofStrategy, Some(if d.relatedCheckers.Some? then d.relatedCheckers.value else []))
  }

  const LyapunovCheckerDescription := "You specify H(.), theta(t); it verifies algebraic descent conditions."
  const GateValidatorDescription := "Brute-force checks that recursion halts when N<=epsilon and resets when H>theta."
  const ContractionTesterDescription := "Verifies symbolic Lipschitz bounds for F under your chosen norms and parameter ranges."
  const AntiDoomLoopStatement := "the loop cannot execute infinitely with zero novelty."
  const BoundednessStatement := "states remain bounded; with bounded Qt, the system is ISS."
  const CoherentIdentityStatement := "cumulative transforms preserve core identity (monoid action)."

  /** The checker table `_load_checkers` reads. */
  function CheckersData(): (ds: seq<CheckerData>)
    ensures |ds| == 3
  {
    [
      CheckerData("Lyapunov/Health Checker", LyapunovCheckerDescription,
        Some(High), Some("2-3 weeks"), Some(["symbolic_math_engine"])),
      CheckerData("Gate Automaton Validator", GateValidatorDescription,
        Some(Critical), Some("1-2 weeks"), Some(["state_machine_framework"])),
      CheckerData("Contraction Condition Tester", ContractionTesterDescription,
        Some(High), Some("2-4 weeks"), Some(["norm_calculator", "symbolic_math_engine"]))
    ]
  }

  /** The theorem table `_load_theorems` reads. */
  function TheoremsData(): (ds: seq<TheoremData>)
    ensures |ds| == 3
  {
    [
      TheoremData("Theorem 1 (Anti-Doom-Loop)", "under (B-C)", AntiDoomLoopStatement,
        Some(Critical), Some("contradiction_proof"), Some(["Gate Automaton Validator"])),
      TheoremData("Theorem 2 (Boundedness/ISS)", "under (B, D)", BoundednessStatement,
        Some(High), Some("lyapunov_analysis"), Some(["Lyapunov/Health Checker"])),
      TheoremData("Theorem 3 (Coherent Identity)", "under (E)", CoherentIdentityStatement,
        Some(Medium), Some("algebraic_proof"), Some(["Contraction Condition Tester"]))
    ]
  }

  /** The names of a list of checkers, in order. */
  function CheckerNames(cs: seq<Checker>): (ns: seq<string>)
    ensures |ns| == |cs| && forall i :: 0 <= i < |cs| ==> ns[i] == cs[i].name
  {
    if cs == [] then [] else CheckerNames(cs[..|cs| - 1]) + [cs[|cs| - 1].name]
  }

  /** The names of a list of theorems, in order. */
  function TheoremNames(ts: seq<Theorem>): (ns: seq<string>)
    ensures |ns| == |ts| && forall i :: 0 <= i < |ts| ==> ns[i] == ts[i].name
  {
    if ts == [] then [] else TheoremNames(ts[..|ts| - 1]) + [ts[|ts| - 1].name]
  }

  /** The position of the first occurrence of `name`, if any. */
  function FirstIndex(names: seq<string>, name: string): (r: Option<nat>)
    ensures r.None? <==> name !in names
    ensures r.Some? ==> r.value < |names| && names[r.value] == name && name !in names[..r.value]
  {
    if names == [] then None
    else if names[0] == name then Some(0)
    else
      var k := FirstIndex(names[1..], name);
      if k.None? then None
      else
        assert names[1..][..k.value] == names[1..k.value + 1];
        Some(k.value + 1)
  }

  /** Only the first position holding `name` can be its first index. */
  lemma FirstIndexUnique(names: seq<string>, name: string, i: nat)
    requires i < |names| && names[i] == name
    requires forall j :: 0 <= j < i ==> names[j] != name
    ensures FirstIndex(names, name) == Some(i)
  {
  }

  /** The order-preserving sublist of the items `keep` accepts. */
  function Filter<T(!new)>(xs: seq<T>, keep: T -> bool): (r: seq<T>)
    ensures |r| <= |xs|
    ensures forall x :: x in r <==> x in xs && keep(x)
  {
    if xs == [] then []
    else
      var rest := Filter(xs[..|xs| - 1], keep);
      assert xs == xs[..|xs| - 1] + [xs[|xs| - 1]];
      if keep(xs[|xs| - 1]) then rest + [xs[|xs| - 1]] else rest
  }

  /** Filtering distributes over concatenation: the kept items keep their order. */
  lemma {:induction false} FilterAppend<T(!new)>(xs: seq<T>, ys: seq<T>, keep: T -> bool)
    ensures Filter(xs + ys, keep) == Filter(xs, keep) + Filter(ys, keep)
    decreases |ys|
  {
    if ys == [] {
      assert xs + ys == xs;
    } else {
      var zs := ys[..|ys| - 1];
      assert (xs + ys)[..|xs + ys| - 1] == xs + zs;
      FilterAppend(xs, zs, keep);
    }
  }

  /** The result of `get_by_priority` and `get_by_status`. */
  datatype Selection = Selection(checkers: seq<Checker>, theorems: seq<Theorem>)

  /** `_get_priority_icon`; `None` stands for any argument that is not a `Priority`. */
  function PriorityIcon(p: Option<Priority>): (icon: string)
    ensures icon == "[UNK]" <==> p.None?
  {
    if p.None? then "[UNK]"
    else match p.value
      case Low => "[LOW]"
      case Medium => "[MED]"
      case High => "[HIGH]"
      case Critical => "[CRIT]"
  }

  /** `_get_status_icon`; `None` stands for any argument that is not a `Status`. */
  function StatusIcon(s: Option<Status>): (icon: string)
    ensures icon == "[UNK]" <==> s.None?
  {
    if s.None? then "[UNK]"
    else match s.value
      case Planned => "[PLAN]"
      case InProgress => "[PROG]"
      case Completed => "[DONE]"
      case Blocked => "[BLOCK]"
  }

  /** Every member has its own icon. */
  lemma IconsDistinct(p: Priority, q: Priority, s: Status, t: Status)
    ensures PriorityIcon(Some(p)) == PriorityIcon(Some(q)) <==> p == q
    ensures StatusIcon(Some(s)) == StatusIcon(Some(t)) <==> s == t
  {
  }

  /** `FBProofLabRoadmap`: the checker and theorem lists. */
  class Roadmap {
    var checkers: seq<Checker>
    var theorems: seq<Theorem>

    /** `__init__`: the two built-in tables, loaded in order. */
    constructor ()
      ensures |checkers| == 3 && |theorems| == 3
      ensures forall i :: 0 <= i < 3 ==> checkers[i] == CheckerFromData(CheckersData()[i])
      ensures forall i :: 0 <= i < 3 ==> theorems[i] == TheoremFromData(TheoremsData()[i])
    {
      checkers := [];
      theorems := [];
      new;
      LoadCheckers(CheckersData());
      LoadTheorems(TheoremsData());
    }

    /** `_load_checkers`: one checker per table entry, appended in table order. */
    method LoadCheckers(cd: seq<CheckerData>)
      modifies this
      ensures |checkers| == |old(checkers)| + |cd| && checkers[..|old(checkers)|] == old(checkers)
      ensures forall j :: 0 <= j < |cd| ==> checkers[|old(checkers)| + j] == CheckerFromData(cd[j])
      ensures theorems == old(theorems)
    {
      ghost var start := checkers;
      for i := 0 to |cd|
        invariant |checkers| == |start| + i && checkers[..|start|] == start && theorems == old(theorems)
        invariant forall j :: 0 <= j < i ==> checkers[|start| + j] == CheckerFromData(cd[j])
      {
        checkers := checkers + [CheckerFromData(cd[i])];
      }
    }

    /** `_load_theorems`: one theorem per table entry, appended in table order. */
    method LoadTheorems(td: seq<TheoremData>)
      modifies this
      ensures |theorems| == |old(theorems)| + |td| && theorems[..|old(theorems)|] == old(theorems)
      ensures forall j :: 0 <= j < |td| ==> theorems[|old(theorems)| + j] == TheoremFromData(td[j])
      ensures checkers == old(checkers)
    {
      ghost var start := theorems;
      for i := 0 to |td|
        invariant |theorems| == |start| + i && theorems[..|start|] == start && checkers == old(checkers)
        invariant forall j :: 0 <= j < i ==> theorems[|start| + j] == TheoremFromData(td[j])
      {
        theorems := theorems + [TheoremFromData(td[i])];
      }
    }

    /** `add_checker`: appended at the end. */
    method AddChecker(c: Checker)
      modifies this
      ensures checkers == old(checkers) + [c] && theorems == old(theorems)
    {
      checkers := checkers + [c];
    }

    /** `add_theorem`: appended at the end. */
    method AddTheorem(t: Theorem)
      modifies this
      ensures theorems == old(theorems) + [t] && checkers == old(checkers)
    {
      theorems := theorems + [t];
    }

    /**
     * `update_status`: the first checker with that name gets the new status;
     * failing that, the first theorem with it. The result says whether an
     * item was found; when none was, nothing changes.
     */
    method UpdateStatus(itemName: string, newStatus: Status) returns (found: bool)
      modifies this
      ensures found <==> itemName in CheckerNames(old(checkers)) || itemName in TheoremNames(old(theorems))
      ensures var ci := FirstIndex(CheckerNames(old(checkers)), itemName);
        ci.Some? ==>
          checkers == old(checkers)[ci.value := old(checkers)[ci.value].(status := newStatus)] && theorems == old(theorems)
      ensures var ci := FirstIndex(CheckerNames(old(checkers)), itemName);
        var ti := FirstIndex(TheoremNames(old(theorems)), itemName);
        ci.None? && ti.Some? ==>
          checkers == old(checkers) && theorems == old(theorems)[ti.value := old(theorems)[ti.value].(status := newStatus)]
      ensures !found ==> checkers == old(checkers) && theorems == old(theorems)
    {
      for i := 0 to |checkers|
        invariant forall j :: 0 <= j < i ==> checkers[j].name != itemName
      {
        if checkers[i].name == itemName {
          FirstIndexUnique(CheckerNames(checkers), itemName, i);
          checkers := checkers[i := checkers[i].(status := newStatus)];
          return true;
        }
      }
      for i := 0 to |theorems|
        invariant forall j :: 0 <= j < i ==> theorems[j].name != itemName
      {
        if theorems[i].name == itemName {
          FirstIndexUnique(TheoremNames(theorems), itemName, i);
          theorems := theorems[i := theorems[i].(status := newStatus)];
          return true;
        }
      }
      return false;
    }

    /** `get_by_priority`: the items of that priority, in roadmap order. */
    function ByPriority(p: Priority): (r: Selection)
      reads this
      ensures forall c :: c in r.checkers <==> c in checkers && c.priority == p
      ensures forall t :: t in r.theorems <==> t in theorems && t.priority == p
    {
      Selection(Filter(checkers, (c: Checker) => c.priority == p), Filter(theorems, (t: Theorem) => t.priority == p))
    }

    /** `get_by_status`: the items with that status, in roadmap order. */
    function ByStatus(s: Status): (r: Selection)
      reads this
      ensures forall c :: c in r.checkers <==> c in checkers && c.status == s
      ensures forall t :: t in r.theorems <==> t in theorems && t.status == s
    {
      Selection(Filter(checkers, (c: Checker) => c.status == s), Filter(theorems, (t: Theorem) => t.status == s))
    }
  }

  /** Adding a checker adds it to its priority's selection, after the ones already there. */
  lemma AddedCheckerSelectedLast(cs: seq<Checker>, c: Checker)
    ensures Filter(cs + [c], (x: Checker) => x.priority == c.priority)
         == Filter(cs, (x: Checker) => x.priority == c.priority) + [c]
  {
    var keep := (x: Checker) => x.priority == c.priority;
    FilterAppend(cs, [c], keep);
    assert Filter([c], keep) == [c] by {
      assert [c][..0] == [];
    }
  }

  /** A status update moves the item from its old status's selection: it is in the new one afterwards. */
  lemma UpdatedCheckerSelected(cs: seq<Checker>, i: nat, s: Status)
    requires i < |cs|
    ensures cs[i].(status := s) in Filter(cs[i := cs[i].(status := s)], (x: Checker) => x.status == s)
  {
    var cs' := cs[i := cs[i].(status := s)];
    assert cs'[i] in cs';
  }

  /** Exactly one of the built-in checkers is CRITICAL. */
  lemma InitialCriticalItems()
    ensures |Filter(seq(3, i requires 0 <= i < 3 => CheckerFromData(CheckersData()[i])), (c: Checker) => c.priority == Critical)| == 1
  {
    var cs := seq(3, i requires 0 <= i < 3 => CheckerFromData(CheckersData()[i]));
    var keep := (c: Checker) => c.priority == Critical;
    assert cs == [cs[0]] + [cs[1]] + [cs[2]];
    FilterAppend([cs[0]] + [cs[1]], [cs[2]], keep);
    FilterAppend([cs[0]], [cs[1]], keep);
    assert [cs[0]][..0] == [] && [cs[1]][..0] == [] && [cs[2]][..0] == [];
  }
}
