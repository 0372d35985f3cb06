/** A pod's hard node constraints, and the nodes of a GPU class they leave it
    (app/k8s_client.py, app/controller.py). */
module Placement {
  import opened Sums

  type Labels = map<string, string>
  type NodeLabels = map<string, Labels>

  // -- integers as the scheduler reads them -------------------------------------

  predicate IsDigit(c: char) {
    '0' <= c <= '9'
  }

  predicate IsInteger(s: string) {
    var digits := Unsigned(s);
    digits != "" && forall c <- digits :: IsDigit(c)
  }

  /** What is left of a number once its sign, if any, is taken off. */
  function Unsigned(s: string): string {
    if s != "" && (s[0] == '+' || s[0] == '-') then s[1..] else s
  }

  function Magnitude(digits: string): nat
    requires forall c <- digits :: IsDigit(c)
  {
    if digits == "" then 0 else
    var last := digits[|digits| - 1];
    assert IsDigit(last);
    10 * Magnitude(digits[..|digits| - 1]) + (last as int - '0' as int)
  }

  function IntegerOf(s: string): int
    requires IsInteger(s)
  {
    var magnitude: int := Magnitude(Unsigned(s));
    if s[0] == '-' then -magnitude else magnitude
  }

  function Digits(n: nat): string {
    if n < 10 then [('0' as int + n) as char] else Digits(n / 10) + [('0' as int + n % 10) as char]
  }

  function Decimal(n: int): string {
    if n < 0 then "-" + Digits(-n) else Digits(n)
  }

  lemma {:induction false} DigitsRoundTrip(n: nat)
    ensures Digits(n) != "" && forall c <- Digits(n) :: IsDigit(c)
    ensures Magnitude(Digits(n)) == n
  {
    var last := [('0' as int + n % 10) as char];
    if n < 10 {
      assert Digits(n)[..0] == "";
    } else {
      DigitsRoundTrip(n / 10);
      assert Digits(n)[..|Digits(n)| - 1] == Digits(n / 10);
    }
  }

  lemma DecimalRoundTrip(n: int)
    ensures IsInteger(Decimal(n)) && IntegerOf(Decimal(n)) == n
  {
    DigitsRoundTrip(if n < 0 then -n else n);
    if n < 0 {
      assert Decimal(n)[1..] == Digits(-n);
    } else {
      assert Digits(n)[0] in Digits(n);
    }
  }

  /** What is read as an integer: an optional sign and then one digit or more. */
  lemma IntegerSpelling(s: string)
    ensures var from := if s != "" && (s[0] == '+' || s[0] == '-') then 1 else 0;
      IsInteger(s) <==> from < |s| && forall i :: from <= i < |s| ==> '0' <= s[i] <= '9'
  {
    var from := if s != "" && (s[0] == '+' || s[0] == '-') then 1 else 0;
    assert Unsigned(s) == s[from..];
    if IsInteger(s) {
      forall i | from <= i < |s| ensures IsDigit(s[i]) {
        assert s[from..][i - from] == s[i];
      }
    }
  }

  /** A plus sign or a leading zero changes nothing; a minus sign negates. */
  lemma SignsAndZeros(digits: string)
    requires digits != "" && forall c <- digits :: '0' <= c <= '9'
    ensures IsInteger(digits) && IsInteger("+" + digits) && IsInteger("-" + digits) && IsInteger("0" + digits)
    ensures IntegerOf("+" + digits) == IntegerOf(digits) == IntegerOf("0" + digits)
    ensures IntegerOf("-" + digits) == -IntegerOf(digits)
  {
    assert digits[0] in digits;
    assert Unsigned(digits) == digits && Unsigned("0" + digits) == "0" + digits;
    assert Unsigned("+" + digits) == digits && Unsigned("-" + digits) == digits;
    LeadingZero(digits);
  }

  lemma {:induction false} LeadingZero(digits: string)
    requires forall c <- digits :: IsDigit(c)
    ensures Magnitude("0" + digits) == Magnitude(digits)
  {
    var all := "0" + digits;
    if digits == "" {
      assert all[..|all| - 1] == "";
    } else {
      assert all[..|all| - 1] == "0" + digits[..|digits| - 1] && all[|all| - 1] == digits[|digits| - 1];
      LeadingZero(digits[..|digits| - 1]);
    }
  }

  // -- requirements, terms and placements -------------------------------------------

  datatype NodeRequirement = NodeRequirement(key: string, operator: string, values: seq<string>) {
    /** Whether a node whose value for the key is `value` satisfies this. */
    predicate Matches(value: Option<string>) {
      if operator == "In" then value.Some? && value.value in values
      else if operator == "NotIn" then value.None? || value.value !in values
      else if operator == "Exists" then value.Some?
      else if operator == "DoesNotExist" then value.None?
      else if value.None? || |values| != 1 then false
      else if !IsInteger(value.value) || !IsInteger(values[0]) then false
      else if operator == "Gt" then IntegerOf(value.value) > IntegerOf(values[0])
      else IntegerOf(value.value) < IntegerOf(values[0])
    }
  }

  function Get(labels: Labels, key: string): Option<string> {
    if key in labels then Some(labels[key]) else None
  }

  datatype NodeSelectorTerm = NodeSelectorTerm(expressions: seq<NodeRequirement>, fields: seq<NodeRequirement>) {
    predicate Matches(node: string, labels: Labels) {
      && (expressions != [] || fields != [])
      && (forall r <- expressions :: r.Matches(Get(labels, r.key)))
      && (forall r <- fields :: r.Matches(Some(node)))
    }
  }

  datatype NodePlacement = NodePlacement(
    nodeSelector: seq<(string, string)>,
    affinityTerms: Option<seq<NodeSelectorTerm>>)
  {
    predicate Matches(node: string, labels: Labels) {
      && (forall entry <- nodeSelector :: Get(labels, entry.0) == Some(entry.1))
      && (affinityTerms.Some? ==> exists t <- affinityTerms.value :: t.Matches(node, labels))
    }

    function MatchingNodes(nodes: set<string>, labels: NodeLabels): set<string> {
      set n | n in nodes && Matches(n, if n in labels then labels[n] else map[])
    }
  }

  /** On the decimal spellings of two integers the bounds compare the integers. */
  lemma BoundsCompareIntegers(key: string, have: int, bound: int)
    ensures NodeRequirement(key, "Gt", [Decimal(bound)]).Matches(Some(Decimal(have))) <==> have > bound
    ensures NodeRequirement(key, "Lt", [Decimal(bound)]).Matches(Some(Decimal(have))) <==> have < bound
  {
    DecimalRoundTrip(have);
    DecimalRoundTrip(bound);
  }

  /** Any other spelling the operators accept counts as the integer it spells, on either
      side; and a label that is absent or no integer, or a bound that is not one single
      integer, satisfies neither operator. */
  lemma BoundsNeedIntegers(key: string, values: seq<string>, value: Option<string>)
    ensures var gt, lt := NodeRequirement(key, "Gt", values), NodeRequirement(key, "Lt", values);
      if value.Some? && IsInteger(value.value) && |values| == 1 && IsInteger(values[0]) then
        var have, bound := Decimal(IntegerOf(value.value)), Decimal(IntegerOf(values[0]));
        && (gt.Matches(value) <==> NodeRequirement(key, "Gt", [bound]).Matches(Some(have)))
        && (lt.Matches(value) <==> NodeRequirement(key, "Lt", [bound]).Matches(Some(have)))
        && !(gt.Matches(value) && lt.Matches(value))
      else
        !gt.Matches(value) && !lt.Matches(value)
  {
    if value.Some? && IsInteger(value.value) && |values| == 1 && IsInteger(values[0]) {
      DecimalRoundTrip(IntegerOf(value.value));
      DecimalRoundTrip(IntegerOf(values[0]));
    }
  }

  /** The other operators: a label is among the values, or is there at all; each has its
      opposite, which an absent label satisfies. */
  lemma OperatorsExactly(key: string, values: seq<string>, value: Option<string>)
    ensures NodeRequirement(key, "In", values).Matches(value) <==> exists v <- values :: value == Some(v)
    ensures NodeRequirement(key, "NotIn", values).Matches(value) <==> forall v <- values :: value != Some(v)
    ensures NodeRequirement(key, "Exists", values).Matches(value) <==> value != None
    ensures NodeRequirement(key, "DoesNotExist", values).Matches(value) <==> value == None
  {
  }

  /** How requirements make up a term: a term without any accepts no node; one more, on a
      label or on the node's name, must hold as well. */
  lemma TermsNarrow(
    expressions: seq<NodeRequirement>, fields: seq<NodeRequirement>, r: NodeRequirement, node: string, labels: Labels)
    ensures !NodeSelectorTerm([], []).Matches(node, labels)
    ensures var rest := (expressions == [] && fields == []) ||
                        NodeSelectorTerm(expressions, fields).Matches(node, labels);
      && (NodeSelectorTerm(expressions + [r], fields).Matches(node, labels) <==>
            rest && r.Matches(if r.key in labels then Some(labels[r.key]) else None))
      && (NodeSelectorTerm(expressions, fields + [r]).Matches(node, labels) <==> rest && r.Matches(Some(node)))
  {
    assert r in expressions + [r] && r in fields + [r];
    assert forall x <- expressions :: x in expressions + [r];
    assert forall x <- fields :: x in fields + [r];
  }

  /** And how terms make up a placement: one more label to have narrows it, one more term
      widens it, and where terms are asked for one of them must match. */
  lemma PlacementsCompose(
    selector: seq<(string, string)>, terms: seq<NodeSelectorTerm>, all: Option<seq<NodeSelectorTerm>>,
    entry: (string, string), t: NodeSelectorTerm, node: string, labels: Labels)
    ensures NodePlacement([], None).Matches(node, labels)
    ensures !NodePlacement(selector, Some([])).Matches(node, labels)
    ensures NodePlacement(selector + [entry], all).Matches(node, labels) <==>
      entry.0 in labels && labels[entry.0] == entry.1 && NodePlacement(selector, all).Matches(node, labels)
    ensures NodePlacement(selector, Some(terms + [t])).Matches(node, labels) <==>
      NodePlacement(selector, Some(terms)).Matches(node, labels)
      || (NodePlacement(selector, None).Matches(node, labels) && t.Matches(node, labels))
  {
    assert entry in selector + [entry] && forall x <- selector :: x in selector + [entry];
    assert t in terms + [t] && forall x <- terms :: x in terms + [t];
  }

  // -- the nodes of a class a placement leaves -----------------------------------------

  /** `None` when the placement is to be read as no constraint at all. */
  function PlacementNodes(placement: Option<NodePlacement>, classNodes: Option<set<string>>, labels: NodeLabels)
    : Option<set<string>>
  {
    if placement.None? || classNodes.None? then None
    else if exists n <- classNodes.value :: n !in labels then None
    else
      var allowed := placement.value.MatchingNodes(classNodes.value, labels);
      if |allowed| == |classNodes.value| then None else Some(allowed)
  }

  /** Whether, as far as the recorded labels tell, the scheduler may put a pod
      with this placement on node `n`. */
  predicate MayUse(placement: Option<NodePlacement>, n: string, labels: NodeLabels) {
    placement.None? || n !in labels || placement.value.Matches(n, labels[n])
  }

  lemma {:induction false} SubsetSize<T>(small: set<T>, large: set<T>)
    requires small <= large
    ensures |small| <= |large|
    ensures |small| == |large| ==> small == large
    decreases large
  {
    if large != {} {
      var x :| x in large;
      SubsetSize(small - {x}, large - {x});
      if x in small {
        assert large == large - {x} + {x};
      } else {
        assert small - {x} == small;
      }
    }
  }

  /** The placement narrows the class exactly when the class is known, every node
      of it carries labels, and the scheduler would refuse the pod one of them;
      and then what is left is exactly the nodes the scheduler would accept. */
  lemma NarrowsExactly(placement: Option<NodePlacement>, classNodes: Option<set<string>>, labels: NodeLabels)
    ensures PlacementNodes(placement, classNodes, labels).Some? <==>
      && classNodes.Some?
      && (forall n <- classNodes.value :: n in labels)
      && (exists n <- classNodes.value :: !MayUse(placement, n, labels))
    ensures PlacementNodes(placement, classNodes, labels).Some? ==>
      PlacementNodes(placement, classNodes, labels).value
        == set n | n in classNodes.value && MayUse(placement, n, labels)
  {
    if placement.Some? && classNodes.Some? && (forall n <- classNodes.value :: n in labels) {
      var nodes := classNodes.value;
      var allowed := placement.value.MatchingNodes(nodes, labels);
      assert forall n <- nodes :: n in allowed <==> MayUse(placement, n, labels);
      SubsetSize(allowed, nodes);
      if forall n <- nodes :: MayUse(placement, n, labels) {
        assert allowed == nodes;
      }
    }
  }
}
