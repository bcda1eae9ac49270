// The build driver's dependency graph (make.py): discovery with cycle detection, priorities by longest path, and
// scheduling.
module Build {
  type File = string

  // inputs holds the inputs, then the order-only ones.
  datatype Task = Task(outputs: seq<File>, inputs: seq<File>, latency: nat)

  // tasks[rule[f]] makes f.
  datatype Rules = Rules(tasks: seq<Task>, rule: map<File, nat>)

  predicate RulesOk(r: Rules) {
    && (forall f :: f in r.rule ==> r.rule[f] < |r.tasks| && f in r.tasks[r.rule[f]].outputs)
    && (forall t, f :: 0 <= t < |r.tasks| && f in r.tasks[t].outputs ==> f in r.rule && r.rule[f] == t)
  }

  predicate FoundAt(f: string, s: string, i: nat) {
    i + |s| <= |f| && f[i..i + |s|] == s
  }

  predicate Contains(f: string, s: string) {
    exists i :: 0 <= i <= |f| && FoundAt(f, s, i)
  }

  // Paths under an _out directory and phony names have a rules file; any other file is a source.
  predicate Built(f: File) {
    Contains(f, "/_out/") || Contains(f, "/:")
  }

  lemma FoundMeaning(f: string, s: string, a: string, b: string)
    requires f == a + s + b
    ensures Contains(f, s)
  {
    assert FoundAt(f, s, |a|);
  }

  // Followed are the files with a directory _out on the way and those whose last part, or an earlier one, starts with
  // a colon, and no others.
  lemma BuiltMeaning(f: File)
    ensures Built(f) <==> exists a: string, b: string :: f == a + "/_out/" + b || f == a + "/:" + b
  {
    if Built(f) {
      var s := if Contains(f, "/_out/") then "/_out/" else "/:";
      var i :| 0 <= i <= |f| && FoundAt(f, s, i);
      assert f == f[..i] + s + f[i + |s|..];
    }
    forall a: string, b: string | f == a + "/_out/" + b || f == a + "/:" + b ensures Built(f) {
      if f == a + "/_out/" + b {
        FoundMeaning(f, "/_out/", a, b);
      } else {
        FoundMeaning(f, "/:", a, b);
      }
    }
  }

  function Inputs(r: Rules, f: File): seq<File>
    requires RulesOk(r) && f in r.rule
  {
    r.tasks[r.rule[f]].inputs
  }

  predicate Edge(r: Rules, f: File, g: File)
    requires RulesOk(r)
  {
    Built(f) && f in r.rule && g in Inputs(r, f)
  }

  predicate Missing(r: Rules, f: File) {
    Built(f) && f !in r.rule
  }

  // ---------- What discovery must reject ----------

  predicate Path(r: Rules, p: seq<File>)
    requires RulesOk(r)
  {
    |p| > 0 && forall i :: 0 < i < |p| ==> Edge(r, p[i - 1], p[i])
  }

  // A path into a cycle, or to an output nothing makes.
  predicate BadPath(r: Rules, p: seq<File>)
    requires RulesOk(r)
  {
    Path(r, p) && (p[|p| - 1] in p[..|p| - 1] || Missing(r, p[|p| - 1]))
  }

  // ---------- What it leaves: an order ----------

  // Every file comes after all its inputs, and has a rule if it needs one.
  ghost predicate Ordered(r: Rules, order: seq<File>)
    requires RulesOk(r)
  {
    forall i :: 0 <= i < |order| ==> OrderedAt(r, order, i)
  }

  ghost predicate OrderedAt(r: Rules, order: seq<File>, i: nat)
    requires RulesOk(r) && i < |order|
  {
    !Missing(r, order[i]) && forall g :: Edge(r, order[i], g) ==> g in order[..i]
  }

  predicate NoRepeats(s: seq<File>) {
    forall i, j :: 0 <= i < j < |s| ==> s[i] != s[j]
  }

  // Along a path from an ordered file the positions fall, so it never comes back and never leaves the order.
  lemma {:induction false} PathFalls(r: Rules, order: seq<File>, p: seq<File>, a: nat)
    requires RulesOk(r) && Ordered(r, order) && NoRepeats(order) && Path(r, p) && a < |order| && p[0] == order[a]
    ensures forall f :: f in p ==> f in order[..a + 1]
    ensures p[|p| - 1] !in p[..|p| - 1] && !Missing(r, p[|p| - 1])
  {
    assert OrderedAt(r, order, a);
    assert order[a] in order[..a + 1];
    if |p| > 1 {
      assert Edge(r, p[0], p[1]);
      assert p[1] in order[..a];
      var b :| 0 <= b < a && order[b] == p[1];
      var rest := p[1..];
      PathRest(r, p);
      PathFalls(r, order, rest, b);
      assert order[..b + 1] <= order[..a] && p == [p[0]] + rest;
      forall f | f in rest
        ensures f in order[..a] && f != p[0]
      {
        var k :| 0 <= k < b + 1 && order[k] == f;
        assert order[..a][k] == f;
      }
      var last := rest[|rest| - 1];
      assert p[..|p| - 1] == [p[0]] + rest[..|rest| - 1];
      assert last in rest && last != p[0];
    }
  }

  lemma PathRest(r: Rules, p: seq<File>)
    requires RulesOk(r) && Path(r, p) && |p| > 1
    ensures Path(r, p[1..])
  {
    forall i | 0 < i < |p| - 1
      ensures Edge(r, p[1..][i - 1], p[1..][i])
    {
      assert Edge(r, p[i], p[i + 1]);
    }
  }

  lemma OrderedExtends(r: Rules, order: seq<File>, f: File)
    requires RulesOk(r) && Ordered(r, order) && !Missing(r, f) && forall g :: Edge(r, f, g) ==> g in order
    ensures Ordered(r, order + [f])
  {
    var more := order + [f];
    forall i | 0 <= i < |more|
      ensures OrderedAt(r, more, i)
    {
      if i < |order| {
        assert OrderedAt(r, order, i) && more[..i] == order[..i];
      } else {
        assert more[..i] == order;
      }
    }
  }

  // ---------- Discovery ----------

  datatype Verdict = Fine | CycleAt(f: File) | NoRule(f: File)

  class Discovery {
    const r: Rules
    var visited: set<File>
    var active: set<File>
    ghost var order: seq<File>
    ghost var stack: seq<File>

    constructor (r: Rules)
      requires RulesOk(r)
      ensures Valid() && this.r == r && stack == [] && visited == {}
    {
      this.r := r;
      visited, active := {}, {};
      order, stack := [], [];
    }

    ghost predicate Valid()
      reads this
    {
      RulesOk(r) && Consistent(r, visited, active, order, stack)
    }

    method Discover(output: File, ghost universe: set<File>) returns (v: Verdict, ghost q: seq<File>)
      requires Valid() && output in universe && visited <= universe
      requires forall f, g :: f in universe && Edge(r, f, g) ==> g in universe
      requires stack != [] ==> Edge(r, stack[|stack| - 1], output)
      modifies this
      ensures RulesOk(r) && old(order) <= order && old(visited) <= visited <= universe
      ensures v.Fine? ==> Valid() && stack == old(stack) && output in order
      ensures !v.Fine? ==> BadPath(r, q) && old(stack) + [output] <= q
      decreases universe - visited
    {
      hide Consistent, Edge, BadPath, Built, RulesOk;
      q := stack + [output];
      PathGrows(r, visited, active, order, stack, output);
      Seen(r, visited, active, order, stack, output);
      if output in active {
        return CycleAt(output), q;
      }
      if output in visited {
        return Fine, q;
      }
      RuleTable(r, output);
      Finish(r, visited, active, order, stack, output);
      Begin(r, visited, active, order, stack, output);
      visited := visited + {output};
      if !Built(output) {
        order := order + [output];
        return Fine, q;
      }
      if output !in r.rule {
        return NoRule(output), q;
      }
      active, stack := active + {output}, stack + [output];
      var inputs := r.tasks[r.rule[output]].inputs;
      for i := 0 to |inputs|
        invariant Valid() && stack == old(stack) + [output] && old(order) <= order
        invariant old(visited) + {output} <= visited <= universe
        invariant forall j :: 0 <= j < i ==> inputs[j] in order
      {
        assert Edge(r, output, inputs[i]);
        v, q := Discover(inputs[i], universe);
        if !v.Fine? {
          return;
        }
      }
      Return(r, visited, active, order, old(stack), output);
      active, stack, order := active - {output}, old(stack), order + [output];
      v := Fine;
    }
  }

  // Files are on the stack of calls, finished, or not yet seen.
  ghost predicate Consistent(r: Rules, visited: set<File>, active: set<File>, order: seq<File>, stack: seq<File>)
    requires RulesOk(r)
  {
    && Ordered(r, order) && NoRepeats(order) && NoRepeats(stack)
    && (forall f :: f in active <==> f in stack)
    && (forall f :: f in visited <==> f in stack || f in order)
    && (forall f :: f in stack ==> f !in order)
    && (stack != [] ==> Path(r, stack))
  }

  lemma RuleTable(r: Rules, f: File)
    requires RulesOk(r)
    ensures f in r.rule ==> r.rule[f] < |r.tasks|
    ensures f in r.rule && Built(f) ==> forall g :: Edge(r, f, g) <==> g in r.tasks[r.rule[f]].inputs
    ensures f !in r.rule || !Built(f) ==> forall g :: !Edge(r, f, g)
    ensures Missing(r, f) <==> Built(f) && f !in r.rule
  {
  }

  lemma Seen(r: Rules, visited: set<File>, active: set<File>, order: seq<File>, stack: seq<File>, f: File)
    requires RulesOk(r) && Consistent(r, visited, active, order, stack)
    ensures f in visited && f !in active ==> f in order
    ensures f in active ==> f in stack
  {
  }

  lemma PathGrows(r: Rules, visited: set<File>, active: set<File>, order: seq<File>, stack: seq<File>, f: File)
    requires RulesOk(r) && Consistent(r, visited, active, order, stack)
    requires stack != [] ==> Edge(r, stack[|stack| - 1], f)
    ensures Path(r, stack + [f])
    ensures f in stack || Missing(r, f) ==> BadPath(r, stack + [f])
  {
    var q := stack + [f];
    forall i | 0 < i < |q|
      ensures Edge(r, q[i - 1], q[i])
    {
      if i < |stack| {
        assert Edge(r, stack[i - 1], stack[i]);
      }
    }
    assert q[..|q| - 1] == stack;
  }

  // A source is finished at once.
  lemma Finish(r: Rules, visited: set<File>, active: set<File>, order: seq<File>, stack: seq<File>, f: File)
    requires RulesOk(r) && Consistent(r, visited, active, order, stack) && f !in visited
    ensures !Built(f) ==> Consistent(r, visited + {f}, active, order + [f], stack)
  {
    if !Built(f) {
      OrderedExtends(r, order, f);
      hide Ordered;
    }
  }

  lemma Begin(r: Rules, visited: set<File>, active: set<File>, order: seq<File>, stack: seq<File>, f: File)
    requires RulesOk(r) && Consistent(r, visited, active, order, stack) && f !in visited && Path(r, stack + [f])
    ensures Consistent(r, visited + {f}, active + {f}, order, stack + [f])
  {
    hide Ordered;
  }

  lemma Return(r: Rules, visited: set<File>, active: set<File>, order: seq<File>, stack: seq<File>, f: File)
    requires RulesOk(r) && Consistent(r, visited, active, order, stack + [f])
    requires !Missing(r, f) && forall g :: Edge(r, f, g) ==> g in order
    ensures Consistent(r, visited, active - {f}, order + [f], stack)
  {
    var more := stack + [f];
    assert more[|stack|] == f && f in more;
    OrderedExtends(r, order, f);
    hide Ordered;
    assert forall i :: 0 <= i < |stack| ==> stack[i] == more[i];
    assert forall g :: g in more <==> g in stack || g == f;
    assert forall i :: 0 <= i < |stack| ==> more[i] != more[|stack|];
    assert f !in stack;
    if stack != [] {
      forall i | 0 < i < |stack|
        ensures Edge(r, stack[i - 1], stack[i])
      {
        assert Edge(r, more[i - 1], more[i]);
      }
    }
  }

  function AllInputs(r: Rules): set<File> {
    set t, f | 0 <= t < |r.tasks| && f in r.tasks[t].inputs :: f
  }

  lemma BadPathsExcluded(r: Rules, order: seq<File>, outputs: seq<File>)
    requires RulesOk(r) && Ordered(r, order) && NoRepeats(order)
    requires forall o :: o in outputs ==> o in order
    ensures !exists p :: BadPath(r, p) && p[0] in outputs
  {
    forall p | Path(r, p) && p[0] in outputs
      ensures !BadPath(r, p)
    {
      var a :| 0 <= a < |order| && order[a] == p[0];
      PathFalls(r, order, p, a);
    }
  }

  lemma EdgeInputs(r: Rules, f: File, g: File)
    requires RulesOk(r) && Edge(r, f, g)
    ensures g in AllInputs(r)
  {
    var t := r.rule[f];
    assert t < |r.tasks| && g in r.tasks[t].inputs;
  }

  // Discovery of all the requested outputs rejects exactly the graphs with a path to a cycle or to an output nothing
  // makes. What it accepts comes with an order of the files reached.
  method DiscoverAll(r: Rules, outputs: seq<File>) returns (v: Verdict, ghost order: seq<File>)
    requires RulesOk(r)
    ensures v.Fine? <==> !exists p :: BadPath(r, p) && p[0] in outputs
    ensures v.Fine? ==> Ordered(r, order) && NoRepeats(order) && forall o :: o in outputs ==> o in order
  {
    hide BadPath, Edge, Ordered, Path;
    ghost var universe := AllInputs(r) + set o | o in outputs;
    forall f, g | f in universe && Edge(r, f, g)
      ensures g in universe
    {
      EdgeInputs(r, f, g);
    }
    var d := new Discovery(r);
    order := [];
    v := Fine;
    for i := 0 to |outputs|
      invariant fresh(d) && d.r == r && d.Valid() && d.stack == [] && d.visited <= universe && v.Fine?
      invariant forall j :: 0 <= j < i ==> outputs[j] in d.order
    {
      ghost var q;
      v, q := d.Discover(outputs[i], universe);
      if !v.Fine? {
        assert q[0] == outputs[i];
        return;
      }
    }
    order := d.order;
    BadPathsExcluded(r, order, outputs);
  }

  // ---------- When discovery misses nothing ----------

  predicate RuleEdge(r: Rules, f: File, g: File)
    requires RulesOk(r)
  {
    f in r.rule && g in Inputs(r, f)
  }

  // A path along rules, whether discovery follows them or not.
  predicate RulePath(r: Rules, p: seq<File>)
    requires RulesOk(r)
  {
    |p| > 0 && forall i :: 0 < i < |p| ==> RuleEdge(r, p[i - 1], p[i])
  }

  predicate BadRulePath(r: Rules, p: seq<File>)
    requires RulesOk(r)
  {
    RulePath(r, p) && (p[|p| - 1] in p[..|p| - 1] || Missing(r, p[|p| - 1]))
  }

  // f leads to a cycle, or to an output nothing makes: by the rules, and by the ones discovery follows.
  ghost predicate Faulty(r: Rules, f: File)
    requires RulesOk(r)
  {
    exists p :: BadRulePath(r, p) && p[0] == f
  }

  ghost predicate Detected(r: Rules, f: File)
    requires RulesOk(r)
  {
    exists p :: BadPath(r, p) && p[0] == f
  }

  lemma RuleSuffix(r: Rules, p: seq<File>, i: nat, j: nat)
    requires RulesOk(r) && RulePath(r, p) && i < j <= |p|
    ensures RulePath(r, p[i..j])
  {
    forall k | 0 < k < j - i
      ensures RuleEdge(r, p[i..j][k - 1], p[i..j][k])
    {
      assert RuleEdge(r, p[i + k - 1], p[i + k]);
    }
  }

  lemma RuleJoin(r: Rules, p: seq<File>, q: seq<File>)
    requires RulesOk(r) && RulePath(r, p) && RulePath(r, q) && p[|p| - 1] == q[0]
    ensures RulePath(r, p + q[1..])
  {
    var m := p + q[1..];
    forall k | 0 < k < |m|
      ensures RuleEdge(r, m[k - 1], m[k])
    {
      if k < |p| {
        assert RuleEdge(r, p[k - 1], p[k]);
      } else {
        assert RuleEdge(r, q[k - |p|], q[k - |p| + 1]);
      }
    }
  }

  // Past the start of a cycle one goes round it.
  lemma RoundCycle(r: Rules, p: seq<File>, j: nat, i: nat)
    requires RulesOk(r) && RulePath(r, p) && j < i < |p| - 1 && p[j] == p[|p| - 1]
    ensures Faulty(r, p[i])
  {
    hide RuleEdge, RulesOk;
    var n := |p| - 1;
    var x, y := p[i..n + 1], p[j..i + 1];
    RuleSuffix(r, p, i, n + 1);
    RuleSuffix(r, p, j, i + 1);
    assert x[|x| - 1] == y[0];
    var q := x + y[1..];
    hide RulePath;
    RuleJoin(r, x, y);
    assert q[|q| - 1] == p[i] == q[0] == q[..|q| - 1][0];
    assert BadRulePath(r, q);
  }

  lemma SuffixRepeats(r: Rules, p: seq<File>, i: nat, j: nat)
    requires RulesOk(r) && RulePath(r, p) && i <= j < |p| - 1 && p[j] == p[|p| - 1]
    ensures BadRulePath(r, p[i..])
  {
    hide RuleEdge, RulesOk;
    RuleSuffix(r, p, i, |p|);
    hide RulePath;
    var q := p[i..];
    assert p[i..|p|] == q;
    assert q[..|q| - 1][j - i] == q[|q| - 1];
  }

  // Every file on a faulty path is faulty.
  lemma AllFaulty(r: Rules, p: seq<File>, i: nat)
    requires RulesOk(r) && BadRulePath(r, p) && i < |p|
    ensures Faulty(r, p[i])
  {
    hide RuleEdge, RulesOk, RulePath, Missing;
    var n := |p| - 1;
    if Missing(r, p[n]) {
      RuleSuffix(r, p, i, |p|);
      assert p[i..|p|] == p[i..];
      assert BadRulePath(r, p[i..]);
    } else {
      var j :| 0 <= j < n && p[..n][j] == p[n];
      if i <= j {
        SuffixRepeats(r, p, i, j);
        assert p[i..][0] == p[i];
      } else if i == n {
        SuffixRepeats(r, p, j, j);
        assert p[j..][0] == p[i];
      } else {
        RoundCycle(r, p, j, i);
      }
    }
  }

  lemma DetectedFaulty(r: Rules, f: File)
    requires RulesOk(r) && Detected(r, f)
    ensures Faulty(r, f) && Built(f)
  {
    var p :| BadPath(r, p) && p[0] == f;
    assert RulePath(r, p) by {
      forall i | 0 < i < |p|
        ensures RuleEdge(r, p[i - 1], p[i])
      {
        assert Edge(r, p[i - 1], p[i]);
      }
    }
    assert BadRulePath(r, p);
    assert |p| > 1 ==> Edge(r, p[0], p[1]);
    assert |p| == 1 ==> Missing(r, f);
  }

  // Discovery sees every cycle and every missing rule exactly when each file that leads to one is under _out or phony.
  lemma DetectsAllExactly(r: Rules)
    requires RulesOk(r)
    ensures (forall f :: Detected(r, f) <==> Faulty(r, f)) <==> (forall f :: Faulty(r, f) ==> Built(f))
  {
    if forall f :: Faulty(r, f) ==> Built(f) {
      forall f
        ensures Detected(r, f) <==> Faulty(r, f)
      {
        if Detected(r, f) {
          DetectedFaulty(r, f);
        }
        if Faulty(r, f) {
          var p :| BadRulePath(r, p) && p[0] == f;
          forall i | 0 < i < |p|
            ensures Edge(r, p[i - 1], p[i])
          {
            AllFaulty(r, p, i - 1);
            assert RuleEdge(r, p[i - 1], p[i]);
          }
          assert BadPath(r, p);
        }
      }
    } else {
      var f :| Faulty(r, f) && !Built(f);
      if Detected(r, f) {
        DetectedFaulty(r, f);
      }
    }
  }

  // A rule whose output is neither, as _out/../x is once its path is normalized, can hide a cycle.
  lemma HiddenCycle()
    ensures var f := "/p/x";
            var r := Rules([Task([f], [f], 1)], map[f := 0]);
            RulesOk(r) && Faulty(r, f) && !Built(f) && !Detected(r, f)
  {
    var f := "/p/x";
    var r := Rules([Task([f], [f], 1)], map[f := 0]);
    assert RulesOk(r);
    assert !Contains(f, "/_out/");
    assert f[0..2] == "/p" && f[1..3] == "p/" && f[2..4] == "/x";
    assert forall i :: 0 <= i <= |f| ==> !FoundAt(f, "/:", i);
    var p := [f, f];
    assert RuleEdge(r, f, f) && p[..1][0] == f;
    assert BadRulePath(r, p);
    if Detected(r, f) {
      DetectedFaulty(r, f);
    }
  }

  // ---------- Tasks in rank order ----------

  predicate TaskEdge(r: Rules, t: nat, u: nat)
    requires RulesOk(r)
  {
    t < |r.tasks| && exists f :: f in r.tasks[t].inputs && f in r.rule && r.rule[f] == u
  }

  // Each known task's inputs are made by known tasks of lower rank.
  ghost predicate Ranked(r: Rules, rank: seq<nat>, known: set<nat>)
    requires RulesOk(r)
  {
    && |rank| == |r.tasks| && (forall t :: t in known ==> t < |r.tasks|)
    && forall t: nat, u: nat :: t in known && TaskEdge(r, t, u) ==> u in known && rank[u] < rank[t]
  }

  // Every file comes after all the inputs of its rule, followed by discovery or not.
  ghost predicate RuleOrdered(r: Rules, order: seq<File>)
    requires RulesOk(r)
  {
    forall i :: 0 <= i < |order| ==> RuleOrderedAt(r, order, i)
  }

  ghost predicate RuleOrderedAt(r: Rules, order: seq<File>, i: nat)
    requires RulesOk(r) && i < |order|
  {
    forall g :: RuleEdge(r, order[i], g) ==> g in order[..i]
  }

  // Discovery's order is one, if it followed the rules of all the files it reached.
  lemma DiscoveryOrders(r: Rules, order: seq<File>)
    requires RulesOk(r) && Ordered(r, order) && forall f :: f in order && f in r.rule ==> Built(f)
    ensures RuleOrdered(r, order)
  {
    forall i | 0 <= i < |order|
      ensures RuleOrderedAt(r, order, i)
    {
      assert OrderedAt(r, order, i);
      assert order[i] in order;
      forall g | RuleEdge(r, order[i], g)
        ensures g in order[..i]
      {
        assert Edge(r, order[i], g);
      }
    }
  }

  // The first position of any of a task's outputs in the order.
  function FirstOf(order: seq<File>, outs: seq<File>): (r: nat)
    ensures r <= |order|
    ensures r < |order| ==> order[r] in outs
    ensures forall i :: 0 <= i < r ==> order[i] !in outs
  {
    if order == [] then 0
    else if order[0] in outs then 0
    else
      var k := FirstOf(order[1..], outs);
      assert forall i :: 1 <= i < k + 1 ==> order[i] == order[1..][i - 1];
      k + 1
  }

  // An order ranks the tasks of its files.
  lemma OrderRanks(r: Rules, order: seq<File>) returns (rank: seq<nat>, known: set<nat>)
    requires RulesOk(r) && RuleOrdered(r, order)
    ensures Ranked(r, rank, known)
    ensures forall f :: f in order && f in r.rule ==> r.rule[f] in known
  {
    rank := seq(|r.tasks|, t requires 0 <= t < |r.tasks| => FirstOf(order, r.tasks[t].outputs));
    known := set t | 0 <= t < |r.tasks| && FirstOf(order, r.tasks[t].outputs) < |order|;
    forall t: nat, u: nat | t in known && TaskEdge(r, t, u)
      ensures u in known && rank[u] < rank[t]
    {
      var g :| g in r.tasks[t].inputs && g in r.rule && r.rule[g] == u;
      var f := order[rank[t]];
      assert f in r.tasks[t].outputs && RuleEdge(r, f, g);
      assert RuleOrderedAt(r, order, rank[t]);
      assert g in order[..rank[t]] && g in r.tasks[u].outputs;
    }
    forall f | f in order && f in r.rule
      ensures r.rule[f] in known
    {
      var i :| 0 <= i < |order| && order[i] == f;
      assert f in r.tasks[r.rule[f]].outputs;
    }
  }

  // ---------- Priorities ----------

  function Latency(r: Rules, t: nat): nat {
    if t < |r.tasks| then r.tasks[t].latency else 0
  }

  // The latency along a chain of tasks adds up theirs.
  lemma TotalMeaning(r: Rules, p: seq<nat>, t: nat)
    requires t < |r.tasks|
    ensures Total(r, []) == 0 && Total(r, p + [t]) == Total(r, p) + r.tasks[t].latency
  {
    assert (p + [t])[..|p|] == p;
  }

  // A chain of tasks from a requested one, and the latency along it.
  predicate Chain(r: Rules, roots: set<nat>, p: seq<nat>)
    requires RulesOk(r)
  {
    |p| > 0 && p[0] in roots && forall i :: 0 < i < |p| ==> TaskEdge(r, p[i - 1], p[i])
  }

  function Total(r: Rules, p: seq<nat>): nat {
    if p == [] then 0 else Total(r, p[..|p| - 1]) + Latency(r, p[|p| - 1])
  }

  lemma ChainGrows(r: Rules, roots: set<nat>, p: seq<nat>, t: nat)
    requires RulesOk(r) && (if p == [] then t in roots else Chain(r, roots, p) && TaskEdge(r, p[|p| - 1], t))
    ensures Chain(r, roots, p + [t]) && Total(r, p + [t]) == Total(r, p) + Latency(r, t)
  {
    var q := p + [t];
    assert q[..|q| - 1] == p;
    forall i | 0 < i < |q|
      ensures TaskEdge(r, q[i - 1], q[i])
    {
      if i < |p| {
        assert TaskEdge(r, p[i - 1], p[i]);
      }
    }
  }

  // A task's inputs rank below it, so raising them does not touch it. -1 marks a task not reached.
  ghost predicate Closed(r: Rules, prio: seq<int>, t: nat)
    requires RulesOk(r)
  {
    t < |prio| && (prio[t] >= 0 ==>
      forall u: nat :: u < |prio| && TaskEdge(r, t, u) ==> prio[u] >= prio[t] + Latency(r, u))
  }

  ghost predicate Attained(r: Rules, roots: set<nat>, prio: seq<int>, t: nat)
    requires RulesOk(r) && t < |prio|
  {
    prio[t] == -1 || exists p :: Chain(r, roots, p) && p[|p| - 1] == t && Total(r, p) == prio[t]
  }

  // Every priority is the latency of some chain.
  ghost predicate AllAttained(r: Rules, roots: set<nat>, prio: seq<int>)
    requires RulesOk(r)
  {
    forall t :: 0 <= t < |prio| ==> Attained(r, roots, prio, t)
  }

  // Known tasks of rank below k have their inputs' priorities up to date.
  ghost predicate ClosedBelow(r: Rules, prio: seq<int>, rank: seq<nat>, known: set<nat>, k: nat)
    requires RulesOk(r) && Ranked(r, rank, known)
  {
    forall t :: t in known && rank[t] < k ==> Closed(r, prio, t)
  }

  predicate Raised(prio: seq<int>, prio': seq<int>) {
    |prio'| == |prio| && forall t :: 0 <= t < |prio| ==> prio[t] <= prio'[t]
  }

  class Priorities {
    const r: Rules
    const prio: array<int>
    ghost const roots: set<nat>
    ghost const rank: seq<nat>
    ghost const known: set<nat>

    constructor (r: Rules, ghost roots: set<nat>, ghost rank: seq<nat>, ghost known: set<nat>)
      requires RulesOk(r) && Ranked(r, rank, known)
      ensures fresh(prio) && Valid() && this.r == r && this.roots == roots && this.rank == rank && this.known == known
      ensures forall t :: 0 <= t < |r.tasks| ==> prio[t] == -1
    {
      this.r, this.roots, this.rank, this.known := r, roots, rank, known;
      prio := new int[|r.tasks|](_ => -1);
    }

    ghost predicate Valid()
      reads prio
    {
      RulesOk(r) && Ranked(r, rank, known) && prio.Length == |r.tasks| && AllAttained(r, roots, prio[..])
    }

    // Raises a task's priority to the latency of the chain that reached it, and its inputs' after it.
    method Propagate(t: nat, latency: nat, ghost p: seq<nat>)
      requires Valid() && t in known && latency == Total(r, p)
      requires if p == [] then t in roots else Chain(r, roots, p) && TaskEdge(r, p[|p| - 1], t)
      requires ClosedBelow(r, prio[..], rank, known, rank[t] + 1)
      modifies prio
      ensures Valid() && ClosedBelow(r, prio[..], rank, known, rank[t] + 1)
      ensures Raised(old(prio[..]), prio[..]) && prio[t] >= latency + Latency(r, t)
      ensures forall x :: 0 <= x < prio.Length && prio[x] != old(prio[x]) ==> x in known && rank[x] <= rank[t]
      decreases rank[t]
    {
      hide TaskEdge, Chain, Total, Closed, Attained, RulesOk;
      KnownTask(r, rank, known, t);
      var l := latency + r.tasks[t].latency;
      if l <= prio[t] {
        return;
      }
      ghost var q := p + [t];
      ChainGrows(r, roots, p, t);
      RaiseOne(r, roots, prio[..], rank, known, t, l, q);
      prio[t] := l;
      assert prio[..] == old(prio[..])[t := l];
      var inputs := r.tasks[t].inputs;
      for i := 0 to |inputs|
        invariant Valid() && prio[t] == l && Raised(old(prio[..]), prio[..])
        invariant ClosedBelow(r, prio[..], rank, known, rank[t])
        invariant forall x :: x in known && rank[x] <= rank[t] && x != t ==> Closed(r, prio[..], x)
        invariant forall x :: 0 <= x < prio.Length && prio[x] != old(prio[x]) ==> x in known && rank[x] <= rank[t]
        invariant forall j :: 0 <= j < i && inputs[j] in r.rule ==> InputRaised(r, prio[..], inputs[j], l)
      {
        if inputs[i] in r.rule {
          var u := r.rule[inputs[i]];
          ghost var before := prio[..];
          InputBelow(r, rank, known, t, inputs[i]);
          BelowOne(r, prio[..], rank, known, rank[t], rank[u] + 1);
          Propagate(u, l, q);
          Rejoin(r, before, prio[..], rank, known, t, u);
          assert forall j :: 0 <= j < i && inputs[j] in r.rule ==> InputRaised(r, before, inputs[j], l);
        }
      }
      CloseTop(r, prio[..], rank, known, t, l);
    }
  }

  predicate InputRaised(r: Rules, prio: seq<int>, f: File, l: int) {
    f in r.rule && r.rule[f] < |prio| && prio[r.rule[f]] >= l + Latency(r, r.rule[f])
  }

  lemma KnownTask(r: Rules, rank: seq<nat>, known: set<nat>, t: nat)
    requires RulesOk(r) && Ranked(r, rank, known) && t in known
    ensures t < |r.tasks| == |rank| && Latency(r, t) == r.tasks[t].latency
  {
  }

  lemma InputBelow(r: Rules, rank: seq<nat>, known: set<nat>, t: nat, f: File)
    requires RulesOk(r) && Ranked(r, rank, known) && t in known && f in r.tasks[t].inputs && f in r.rule
    ensures r.rule[f] in known && r.rule[f] < |rank| && rank[r.rule[f]] < rank[t] && TaskEdge(r, t, r.rule[f])
  {
    assert TaskEdge(r, t, r.rule[f]);
  }

  lemma BelowOne(r: Rules, prio: seq<int>, rank: seq<nat>, known: set<nat>, k: nat, j: nat)
    requires RulesOk(r) && Ranked(r, rank, known) && ClosedBelow(r, prio, rank, known, k) && j <= k
    ensures ClosedBelow(r, prio, rank, known, j)
  {
  }

  // Raising one task keeps every chain's claim, and every other task of its rank or below closed.
  lemma RaiseOne(r: Rules, roots: set<nat>, prio: seq<int>, rank: seq<nat>, known: set<nat>, t: nat, l: nat, q: seq<nat>)
    requires RulesOk(r) && Ranked(r, rank, known) && t in known && |prio| == |r.tasks|
    requires AllAttained(r, roots, prio) && ClosedBelow(r, prio, rank, known, rank[t] + 1) && prio[t] < l
    requires Chain(r, roots, q) && q[|q| - 1] == t && Total(r, q) == l
    ensures AllAttained(r, roots, prio[t := l]) && Raised(prio, prio[t := l])
    ensures forall x :: x in known && rank[x] <= rank[t] && x != t ==> Closed(r, prio[t := l], x)
    ensures ClosedBelow(r, prio[t := l], rank, known, rank[t])
  {
    var next := prio[t := l];
    forall x | 0 <= x < |next|
      ensures Attained(r, roots, next, x)
    {
      assert Attained(r, roots, prio, x);
    }
    forall x | x in known && rank[x] <= rank[t] && x != t
      ensures Closed(r, next, x)
    {
      assert Closed(r, prio, x);
    }
  }

  // What a recursive call changes ranks below t, so the other tasks of t's rank stay closed.
  lemma Rejoin(r: Rules, before: seq<int>, prio: seq<int>, rank: seq<nat>, known: set<nat>, t: nat, u: nat)
    requires RulesOk(r) && Ranked(r, rank, known) && t in known && u in known && rank[u] < rank[t]
    requires |prio| == |r.tasks| && Raised(before, prio) && ClosedBelow(r, prio, rank, known, rank[u] + 1)
    requires forall x :: 0 <= x < |prio| && prio[x] != before[x] ==> x in known && rank[x] <= rank[u]
    requires forall x :: x in known && rank[x] <= rank[t] && x != t ==> Closed(r, before, x)
    ensures forall x :: x in known && rank[x] <= rank[t] && x != t ==> Closed(r, prio, x)
    ensures ClosedBelow(r, prio, rank, known, rank[t])
  {
    forall x | x in known && rank[x] <= rank[t] && x != t
      ensures Closed(r, prio, x)
    {
      assert Closed(r, before, x);
      if rank[x] > rank[u] {
        assert prio[x] == before[x];
      }
    }
  }

  lemma CloseTop(r: Rules, prio: seq<int>, rank: seq<nat>, known: set<nat>, t: nat, l: nat)
    requires RulesOk(r) && Ranked(r, rank, known) && t in known && |prio| == |r.tasks| && prio[t] == l
    requires forall x :: x in known && rank[x] <= rank[t] && x != t ==> Closed(r, prio, x)
    requires forall j :: 0 <= j < |r.tasks[t].inputs| && r.tasks[t].inputs[j] in r.rule ==>
               InputRaised(r, prio, r.tasks[t].inputs[j], l)
    ensures ClosedBelow(r, prio, rank, known, rank[t] + 1)
  {
    forall u: nat | u < |prio| && TaskEdge(r, t, u)
      ensures prio[u] >= prio[t] + Latency(r, u)
    {
      var f :| f in r.tasks[t].inputs && f in r.rule && r.rule[f] == u;
      var j :| 0 <= j < |r.tasks[t].inputs| && r.tasks[t].inputs[j] == f;
      assert InputRaised(r, prio, r.tasks[t].inputs[j], l);
    }
    assert Closed(r, prio, t);
  }

  ghost predicate AllClosed(r: Rules, prio: seq<int>, known: set<nat>)
    requires RulesOk(r)
  {
    forall t :: t in known ==> Closed(r, prio, t)
  }

  lemma RejoinAll(r: Rules, before: seq<int>, prio: seq<int>, rank: seq<nat>, known: set<nat>, u: nat)
    requires RulesOk(r) && Ranked(r, rank, known) && u in known
    requires |prio| == |r.tasks| && Raised(before, prio) && ClosedBelow(r, prio, rank, known, rank[u] + 1)
    requires forall x :: 0 <= x < |prio| && prio[x] != before[x] ==> x in known && rank[x] <= rank[u]
    requires AllClosed(r, before, known)
    ensures AllClosed(r, prio, known)
  {
    forall x | x in known
      ensures Closed(r, prio, x)
    {
      assert Closed(r, before, x);
      if rank[x] > rank[u] {
        assert prio[x] == before[x];
      }
    }
  }

  // With every known task closed and the requested ones raised, no chain is longer than its end's priority.
  lemma {:induction false} ChainBounded(r: Rules, roots: set<nat>, prio: seq<int>, rank: seq<nat>, known: set<nat>, p: seq<nat>)
    requires RulesOk(r) && Ranked(r, rank, known) && |prio| == |r.tasks| && AllClosed(r, prio, known)
    requires forall t :: t in roots ==> t in known && prio[t] >= Latency(r, t)
    requires Chain(r, roots, p)
    ensures p[|p| - 1] in known && Total(r, p) <= prio[p[|p| - 1]]
  {
    var front, t := p[..|p| - 1], p[|p| - 1];
    if front == [] {
      assert Total(r, []) == 0 && p[0] == t;
    } else {
      var s := front[|front| - 1];
      assert TaskEdge(r, p[|p| - 2], p[|p| - 1]);
      forall i | 0 < i < |front|
        ensures TaskEdge(r, front[i - 1], front[i])
      {
        assert TaskEdge(r, p[i - 1], p[i]);
      }
      ChainBounded(r, roots, prio, rank, known, front);
      assert Closed(r, prio, s);
    }
  }

  // The tasks of the requested outputs.
  function Roots(r: Rules, outputs: seq<File>): set<nat>
    requires forall o :: o in outputs ==> o in r.rule
  {
    set o | o in outputs :: r.rule[o]
  }

  // Each task's priority is the greatest latency of any chain from a requested output to it, or -1 if there is none.
  method Prioritize(r: Rules, outputs: seq<File>, ghost order: seq<File>) returns (prio: seq<int>)
    requires RulesOk(r) && RuleOrdered(r, order)
    requires forall o :: o in outputs ==> o in order && o in r.rule
    ensures |prio| == |r.tasks|
    ensures forall p :: Chain(r, Roots(r, outputs), p) ==> p[|p| - 1] < |prio| && Total(r, p) <= prio[p[|p| - 1]]
    ensures AllAttained(r, Roots(r, outputs), prio)
  {
    hide Chain, Total, Closed, RulesOk, Attained, RuleOrdered;
    ghost var roots := Roots(r, outputs);
    ghost var rank, known := OrderRanks(r, order);
    var ps := new Priorities(r, roots, rank, known);
    NoneClosed(r, ps.prio[..], known);
    for i := 0 to |outputs|
      invariant fresh(ps.prio) && ps.r == r && ps.roots == roots && ps.rank == rank && ps.known == known && ps.Valid()
      invariant AllClosed(r, ps.prio[..], known)
      invariant forall j :: 0 <= j < i ==> r.rule[outputs[j]] in known && ps.prio[r.rule[outputs[j]]] >= Latency(r, r.rule[outputs[j]])
    {
      var t := r.rule[outputs[i]];
      ghost var before := ps.prio[..];
      KnownTask(r, rank, known, t);
      EmptyTotal(r);
      ps.Propagate(t, 0, []);
      RejoinAll(r, before, ps.prio[..], rank, known, t);
      assert forall j :: 0 <= j < i ==> ps.prio[..][r.rule[outputs[j]]] >= before[r.rule[outputs[j]]];
    }
    prio := ps.prio[..];
    AllBounded(r, roots, prio, rank, known);
  }

  lemma AllBounded(r: Rules, roots: set<nat>, prio: seq<int>, rank: seq<nat>, known: set<nat>)
    requires RulesOk(r) && Ranked(r, rank, known) && |prio| == |r.tasks| && AllClosed(r, prio, known)
    requires forall t :: t in roots ==> t in known && prio[t] >= Latency(r, t)
    ensures forall p :: Chain(r, roots, p) ==> p[|p| - 1] < |prio| && Total(r, p) <= prio[p[|p| - 1]]
  {
    forall p | Chain(r, roots, p)
      ensures p[|p| - 1] < |prio| && Total(r, p) <= prio[p[|p| - 1]]
    {
      ChainBounded(r, roots, prio, rank, known, p);
    }
  }

  lemma EmptyTotal(r: Rules)
    ensures Total(r, []) == 0
  {
  }

  lemma NoneClosed(r: Rules, prio: seq<int>, known: set<nat>)
    requires RulesOk(r) && (forall t :: t in known ==> t < |prio|) && forall t :: 0 <= t < |prio| ==> prio[t] == -1
    ensures AllClosed(r, prio, known)
  {
  }

  // ---------- Scheduling ----------

  // What a look at the disk finds once a task's inputs are done: it is up to date, it must run, or an input is missing.
  datatype Look = UpToDate | Stale | InputMissing

  predicate InputsDone(r: Rules, completed: set<File>, t: nat)
    requires t < |r.tasks|
  {
    forall f :: f in r.tasks[t].inputs ==> f in completed
  }

  predicate Done(r: Rules, completed: set<File>, t: nat)
    requires t < |r.tasks|
  {
    forall f :: f in r.tasks[t].outputs ==> f in completed
  }

  // The driver's sets: files visited in this pass, tasks enqueued, files complete.
  datatype State = State(visited: set<File>, enqueued: set<nat>, completed: set<File>)

  // A task is queued or running: the loop will hear from it.
  predicate Busy(r: Rules, s: State) {
    exists t :: t in s.enqueued && t < |r.tasks| && !Done(r, s.completed, t)
  }

  // A task with the files that were complete when it was enqueued.
  datatype Entry = Entry(task: nat, completed: set<File>)

  predicate Logged(log: seq<Entry>, t: nat) {
    exists i :: 0 <= i < |log| && log[i].task == t
  }

  predicate EntryOk(r: Rules, s: State, e: Entry) {
    e.task in s.enqueued && e.task < |r.tasks| && InputsDone(r, e.completed, e.task) && e.completed <= s.completed
  }

  // A task is enqueued once, after all its inputs were complete. A made file is complete with its task's other
  // outputs, and only after a task's inputs.
  ghost predicate Safe(r: Rules, s: State, log: seq<Entry>)
    requires RulesOk(r)
  {
    && (forall t :: t in s.enqueued ==> Logged(log, t))
    && (forall i, j :: 0 <= i < j < |log| ==> log[i].task != log[j].task)
    && (forall i :: 0 <= i < |log| ==> EntryOk(r, s, log[i]))
    && (forall f :: f in s.completed && f in r.rule ==> MadeOk(r, s, f))
  }

  // What the record of a run says: each task enqueued once, with every one of its inputs complete then, and a made file
  // complete only with every input and every output of its task.
  lemma RecordMeaning(r: Rules, s: State, log: seq<Entry>)
    requires RulesOk(r) && Safe(r, s, log)
    ensures forall t :: t in s.enqueued ==> exists i :: 0 <= i < |log| && log[i].task == t
    ensures forall i, j :: 0 <= i < j < |log| ==> log[i].task != log[j].task
    ensures forall i, f :: 0 <= i < |log| && log[i].task < |r.tasks| && f in r.tasks[log[i].task].inputs ==>
      f in log[i].completed
    ensures forall f, g :: f in s.completed && f in r.rule && g in r.tasks[r.rule[f]].inputs ==> g in s.completed
    ensures forall f, g :: f in s.completed && f in r.rule && g in r.tasks[r.rule[f]].outputs ==> g in s.completed
  {
    forall t | t in s.enqueued ensures exists i :: 0 <= i < |log| && log[i].task == t {
      assert Logged(log, t);
    }
    forall i | 0 <= i < |log| ensures InputsDone(r, log[i].completed, log[i].task) {
      assert EntryOk(r, s, log[i]);
    }
  }

  predicate MadeOk(r: Rules, s: State, f: File)
    requires RulesOk(r) && f in r.rule
  {
    Done(r, s.completed, r.rule[f]) && InputsDone(r, s.completed, r.rule[f])
  }

  predicate Settled(r: Rules, s: State, f: File) {
    f in s.completed || Busy(r, s)
  }

  predicate RankOf(r: Rules, rank: seq<nat>, f: File, k: nat)
    requires RulesOk(r) && |rank| == |r.tasks|
  {
    f in r.rule && rank[r.rule[f]] >= k
  }

  // Visited files are settled, or belong to a call still under way, of rank k or more.
  ghost predicate SettledBelow(r: Rules, rank: seq<nat>, s: State, k: nat)
    requires RulesOk(r) && |rank| == |r.tasks|
  {
    forall f :: f in s.visited ==> Settled(r, s, f) || RankOf(r, rank, f, k)
  }

  // What a call under rank k may add. It completes no task that was enqueued before.
  ghost predicate Grew(r: Rules, rank: seq<nat>, s: State, s': State, k: nat)
    requires RulesOk(r) && |rank| == |r.tasks|
  {
    && s.visited <= s'.visited && s.enqueued <= s'.enqueued && s.completed <= s'.completed
    && (forall f :: f in s'.visited && f !in s.visited ==> !RankOf(r, rank, f, k))
    && (forall t :: t in s'.enqueued && t !in s.enqueued ==> t < |rank| && rank[t] < k)
    && (forall f :: f in s'.completed && f !in s.completed ==> !RankOf(r, rank, f, k) && !(f in r.rule && r.rule[f] in s.enqueued))
  }

  lemma GrewTrans(r: Rules, rank: seq<nat>, a: State, b: State, c: State, j: nat, k: nat)
    requires RulesOk(r) && |rank| == |r.tasks| && Grew(r, rank, a, b, j) && Grew(r, rank, b, c, k) && j <= k
    ensures Grew(r, rank, a, c, k)
  {
  }

  lemma GrewMore(r: Rules, rank: seq<nat>, a: State, b: State, j: nat, k: nat)
    requires RulesOk(r) && |rank| == |r.tasks| && Grew(r, rank, a, b, j) && j <= k
    ensures Grew(r, rank, a, b, k)
  {
  }

  // A busy task stays busy through a pass.
  lemma BusyStays(r: Rules, rank: seq<nat>, s: State, s': State, k: nat)
    requires RulesOk(r) && |rank| == |r.tasks| && Grew(r, rank, s, s', k)
    ensures Busy(r, s) ==> Busy(r, s')
    ensures forall f :: Settled(r, s, f) ==> Settled(r, s', f)
  {
    if Busy(r, s) {
      var t :| t in s.enqueued && t < |r.tasks| && !Done(r, s.completed, t);
      var f :| f in r.tasks[t].outputs && f !in s.completed;
      assert f in r.rule && r.rule[f] == t;
      assert f !in s'.completed;
      assert !Done(r, s'.completed, t);
    }
  }

  // A source is complete as it is.
  lemma SourceOk(r: Rules, rank: seq<nat>, s: State, log: seq<Entry>, f: File, k: nat)
    requires RulesOk(r) && |rank| == |r.tasks| && Safe(r, s, log) && f !in r.rule && SettledBelow(r, rank, s, k)
    ensures var s' := s.(visited := s.visited + {f}, completed := s.completed + {f});
            Safe(r, s', log) && Grew(r, rank, s, s', k) && SettledBelow(r, rank, s', k) && Settled(r, s', f)
  {
    var s' := s.(visited := s.visited + {f}, completed := s.completed + {f});
    assert Grew(r, rank, s, s', k);
    BusyStays(r, rank, s, s', k);
    SafeGrows(r, s, s'.completed, log);
  }

  lemma SafeGrows(r: Rules, s: State, completed: set<File>, log: seq<Entry>)
    requires RulesOk(r) && Safe(r, s, log) && s.completed <= completed
    requires forall f :: f in completed && f !in s.completed ==> f !in r.rule || MadeOk(r, s.(completed := completed), f)
    ensures forall visited :: Safe(r, State(visited, s.enqueued, completed), log)
  {
    forall visited
      ensures Safe(r, State(visited, s.enqueued, completed), log)
    {
      var s' := State(visited, s.enqueued, completed);
      forall i | 0 <= i < |log|
        ensures EntryOk(r, s', log[i])
      {
        assert EntryOk(r, s, log[i]);
      }
      forall f | f in completed && f in r.rule
        ensures MadeOk(r, s', f)
      {
        if f in s.completed {
          assert MadeOk(r, s, f);
        } else {
          assert MadeOk(r, s.(completed := completed), f);
        }
      }
    }
  }

  // An up-to-date task completes without running.
  lemma SkipOk(r: Rules, rank: seq<nat>, s: State, log: seq<Entry>, t: nat)
    requires RulesOk(r) && |rank| == |r.tasks| && Safe(r, s, log) && t < |r.tasks| && t !in s.enqueued && InputsDone(r, s.completed, t)
    ensures var s' := s.(completed := s.completed + set o | o in r.tasks[t].outputs);
            Safe(r, s', log) && Grew(r, rank, s, s', rank[t] + 1)
  {
    var done := s.completed + set o | o in r.tasks[t].outputs;
    var s' := s.(completed := done);
    forall f | f in done && f !in s.completed
      ensures f in r.rule && r.rule[f] == t && MadeOk(r, s', f)
    {
    }
    SafeGrows(r, s, done, log);
  }

  lemma EnqueueOk(r: Rules, rank: seq<nat>, s: State, log: seq<Entry>, t: nat, f: File)
    requires RulesOk(r) && |rank| == |r.tasks| && Safe(r, s, log) && t < |r.tasks| && t !in s.enqueued && InputsDone(r, s.completed, t)
    requires f in r.tasks[t].outputs && f !in s.completed
    ensures var s' := s.(enqueued := s.enqueued + {t});
            Safe(r, s', log + [Entry(t, s.completed)]) && Grew(r, rank, s, s', rank[t] + 1) && Busy(r, s')
  {
    var s' := s.(enqueued := s.enqueued + {t});
    var log' := log + [Entry(t, s.completed)];
    forall i | 0 <= i < |log'|
      ensures EntryOk(r, s', log'[i]) && (i < |log| ==> log'[i].task != t)
    {
      if i < |log| {
        assert EntryOk(r, s, log[i]);
      }
    }
    forall x | x in s'.enqueued
      ensures Logged(log', x)
    {
      if x == t {
        assert log'[|log|].task == t;
      } else {
        assert Logged(log, x);
        var i :| 0 <= i < |log| && log[i].task == x;
        assert log'[i].task == x;
      }
    }
    forall g | g in s'.completed && g in r.rule
      ensures MadeOk(r, s', g)
    {
      assert MadeOk(r, s, g);
    }
    assert !Done(r, s'.completed, t);
  }

  function Visiting(r: Rules, s: State, t: nat): State
    requires t < |r.tasks|
  {
    s.(visited := s.visited + set o | o in r.tasks[t].outputs)
  }

  // Marking a task's outputs visited: they belong to the call under way.
  lemma VisitOk(r: Rules, rank: seq<nat>, s: State, log: seq<Entry>, t: nat, k: nat)
    requires RulesOk(r) && |rank| == |r.tasks| && Safe(r, s, log) && SettledBelow(r, rank, s, k) && t < |r.tasks| && rank[t] < k
    ensures Safe(r, Visiting(r, s, t), log) && Grew(r, rank, s, Visiting(r, s, t), rank[t] + 1)
    ensures SettledBelow(r, rank, Visiting(r, s, t), rank[t])
  {
    var s' := Visiting(r, s, t);
    SafeGrows(r, s, s.completed, log);
    assert Safe(r, State(s'.visited, s.enqueued, s.completed), log);
    forall f | f in s'.visited
      ensures Settled(r, s', f) || RankOf(r, rank, f, rank[t])
    {
      if f in s.visited {
        assert Settled(r, s, f) || RankOf(r, rank, f, k);
        assert Settled(r, s, f) ==> Settled(r, s', f);
      }
    }
  }

  lemma StillBusy(r: Rules, s: State, t: nat)
    requires t < |r.tasks|
    ensures Busy(r, Visiting(r, s, t)) <==> Busy(r, s)
  {
  }

  // After the call t's outputs are settled, and so is everything the call visited.
  lemma CallSettles(r: Rules, rank: seq<nat>, a: State, b: State, c: State, t: nat, k: nat)
    requires RulesOk(r) && |rank| == |r.tasks| && t < |r.tasks| && rank[t] < k
    requires SettledBelow(r, rank, a, k) && Grew(r, rank, Visiting(r, a, t), b, rank[t])
    requires SettledBelow(r, rank, b, rank[t]) && Grew(r, rank, b, c, rank[t] + 1) && c.visited == b.visited
    requires Busy(r, c) || forall o :: o in r.tasks[t].outputs ==> o in c.completed
    ensures SettledBelow(r, rank, c, k)
  {
    if !Busy(r, c) {
      BusyStays(r, rank, b, c, rank[t] + 1);
      BusyStays(r, rank, Visiting(r, a, t), b, rank[t]);
      assert !Busy(r, a) by { StillBusy(r, a, t); }
      forall f | f in c.visited
        ensures f in c.completed || RankOf(r, rank, f, k)
      {
        if f in a.visited {
          assert Settled(r, a, f) || RankOf(r, rank, f, k);
        } else {
          assert Settled(r, b, f) || RankOf(r, rank, f, rank[t]);
          assert f !in r.tasks[t].outputs ==> !RankOf(r, rank, f, rank[t]);
        }
      }
    }
  }

  lemma InputsSettle(r: Rules, s: State, t: nat)
    requires t < |r.tasks| && forall f :: f in r.tasks[t].inputs ==> Settled(r, s, f)
    ensures InputsDone(r, s.completed, t) || Busy(r, s)
  {
  }

  lemma EnqueuedBusy(r: Rules, rank: seq<nat>, s: State, t: nat, f: File, k: nat)
    requires RulesOk(r) && t in s.enqueued && t < |r.tasks| && f in r.tasks[t].outputs && f !in s.completed
    ensures Busy(r, s)
  {
    assert !Done(r, s.completed, t);
  }

  lemma BusySettles(r: Rules, rank: seq<nat>, s: State, k: nat)
    requires RulesOk(r) && |rank| == |r.tasks| && Busy(r, s)
    ensures SettledBelow(r, rank, s, k) && forall f :: Settled(r, s, f)
  {
  }

  lemma TaskOf(r: Rules, f: File, rank: seq<nat>, known: set<nat>)
    requires RulesOk(r) && Ranked(r, rank, known) && f in r.rule
    ensures r.rule[f] < |r.tasks| == |rank| && f in r.tasks[r.rule[f]].outputs
  {
  }

  lemma VisitedSettled(r: Rules, rank: seq<nat>, s: State, f: File, k: nat)
    requires RulesOk(r) && |rank| == |r.tasks| && SettledBelow(r, rank, s, k)
    requires f in s.visited && f in r.rule && rank[r.rule[f]] < k
    ensures Settled(r, s, f)
  {
  }

  class Scheduler {
    const r: Rules
    var visited: set<File>
    var enqueued: set<nat>
    var completed: set<File>
    ghost var log: seq<Entry>

    constructor (r: Rules)
      requires RulesOk(r)
      ensures this.r == r && SafeNow() && enqueued == {} && completed == {}
    {
      this.r := r;
      visited, enqueued, completed := {}, {}, {};
      log := [];
    }

    function Now(): State
      reads this
    {
      State(visited, enqueued, completed)
    }

    ghost predicate SafeNow()
      reads this
    {
      RulesOk(r) && Safe(r, Now(), log)
    }

    // Enqueues what can run under an output. Afterwards the output is complete or some task is busy. It fails only on
    // a missing input.
    method Schedule(output: File, look: seq<Look>, ghost rank: seq<nat>, ghost known: set<nat>, ghost k: nat)
      returns (ok: bool)
      requires SafeNow() && Ranked(r, rank, known) && |look| == |r.tasks|
      requires output in r.rule && r.rule[output] in known && rank[r.rule[output]] < k
      requires SettledBelow(r, rank, Now(), k)
      modifies this
      ensures SafeNow() && old(log) <= log && (ok ==> Grew(r, rank, old(Now()), Now(), rank[r.rule[output]] + 1))
      ensures ok ==> SettledBelow(r, rank, Now(), k) && Settled(r, Now(), output)
      decreases rank[r.rule[output]], 1
    {
      hide RulesOk, Safe, Ranked, Busy, Grew, SettledBelow;
      ok := true;
      var t := r.rule[output];
      TaskOf(r, output, rank, known);
      ghost var a := Now();
      GrewSame(r, rank, a, rank[t] + 1);
      if output in completed {
        return;
      }
      if output in visited {
        VisitedSettled(r, rank, a, output, k);
        return;
      }
      VisitOk(r, rank, a, log, t, k);
      visited := visited + set o | o in r.tasks[t].outputs;
      if t in enqueued {
        EnqueuedBusy(r, rank, Now(), t, output, k);
        BusySettles(r, rank, Now(), k);
        return;
      }
      ok := ScheduleInputs(t, look, rank, known);
      if !ok {
        return;
      }
      ghost var b := Now();
      GrewMore(r, rank, Visiting(r, a, t), b, rank[t], rank[t] + 1);
      GrewTrans(r, rank, a, Visiting(r, a, t), b, rank[t] + 1, rank[t] + 1);
      InputsSettle(r, b, t);
      if !InputsDone(r, completed, t) {
        BusySettles(r, rank, b, k);
        return;
      }
      if look[t] == InputMissing {
        return false;
      }
      NotBelow(r, rank, Visiting(r, a, t), b, t, output);
      if look[t] == UpToDate {
        SkipOk(r, rank, b, log, t);
        completed := completed + set o | o in r.tasks[t].outputs;
        CallSettles(r, rank, a, b, Now(), t, k);
      } else {
        EnqueueOk(r, rank, b, log, t, output);
        enqueued := enqueued + {t};
        log := log + [Entry(t, completed)];
        BusySettles(r, rank, Now(), k);
      }
      GrewTrans(r, rank, a, b, Now(), rank[t] + 1, rank[t] + 1);
    }

    // t's inputs: made ones are scheduled in turn, sources are complete as they are.
    method ScheduleInputs(t: nat, look: seq<Look>, ghost rank: seq<nat>, ghost known: set<nat>) returns (ok: bool)
      requires SafeNow() && Ranked(r, rank, known) && |look| == |r.tasks| && t in known
      requires SettledBelow(r, rank, Now(), rank[t])
      modifies this
      ensures SafeNow() && old(log) <= log
      ensures ok ==> Grew(r, rank, old(Now()), Now(), rank[t]) && SettledBelow(r, rank, Now(), rank[t])
      ensures ok ==> forall f :: f in r.tasks[t].inputs ==> Settled(r, Now(), f)
      decreases rank[t], 0
    {
      hide RulesOk, Safe, Ranked, Busy, Grew, SettledBelow, Settled;
      KnownTask(r, rank, known, t);
      GrewSame(r, rank, Now(), rank[t]);
      var inputs := r.tasks[t].inputs;
      ok := true;
      for i := 0 to |inputs|
        invariant SafeNow() && old(log) <= log && Grew(r, rank, old(Now()), Now(), rank[t])
        invariant SettledBelow(r, rank, Now(), rank[t])
        invariant forall j :: 0 <= j < i ==> Settled(r, Now(), inputs[j])
      {
        ghost var before := Now();
        if inputs[i] in r.rule {
          InputBelow(r, rank, known, t, inputs[i]);
          ok := Schedule(inputs[i], look, rank, known, rank[t]);
          if !ok {
            return;
          }
          GrewMore(r, rank, before, Now(), rank[r.rule[inputs[i]]] + 1, rank[t]);
        } else {
          SourceOk(r, rank, before, log, inputs[i], rank[t]);
          visited, completed := visited + {inputs[i]}, completed + {inputs[i]};
        }
        BusyStays(r, rank, before, Now(), rank[t]);
        assert forall j :: 0 <= j < i ==> Settled(r, before, inputs[j]);
        GrewTrans(r, rank, old(Now()), before, Now(), rank[t], rank[t]);
      }
    }

    // The main loop. Between passes it takes in whatever tasks have finished by then, and stops if one has failed.
    // It waits only while some task is queued or running; if every wait brings a task to its end, it waits no more
    // often than there are tasks.
    method MakeAll(outputs: seq<File>, looks: nat -> seq<Look>, finished: (nat, State) -> seq<nat>, fails: nat -> bool,
                   rounds: nat, ghost rank: seq<nat>, ghost known: set<nat>) returns (end: End)
      requires SafeNow() && Ranked(r, rank, known) && forall n :: |looks(n)| == |r.tasks|
      requires forall o :: o in outputs ==> o in r.rule && r.rule[o] in known
      modifies this
      ensures SafeNow() && old(log) <= log
      ensures end.Made? ==> forall o :: o in outputs ==> o in completed
      ensures end.Waiting? ==> Busy(r, Now())
      ensures end.Waiting? && Lively(r, finished) ==> rounds <= |r.tasks|
    {
      hide RulesOk, Safe, Ranked, Busy, Grew, SettledBelow, Settled, Lively;
      var n := 0;
      UnfinishedBound(r, completed);
      while true
        invariant SafeNow() && old(log) <= log && n <= rounds
        invariant Lively(r, finished) ==> n + |Unfinished(r, completed)| <= |r.tasks|
        decreases rounds - n
      {
        if forall o :: o in outputs ==> o in completed {
          return Made;
        }
        ghost var before := completed;
        var ok := Pass(outputs, looks(n), rank, known);
        if !ok {
          return MissingInput;
        }
        UnfinishedShrinks(r, before, completed);
        if forall o :: o in outputs ==> o in completed {
          return Made;
        }
        if n == rounds {
          return Waiting;
        }
        if Lively(r, finished) {
          LivelyNow(r, finished, n, Now());
        }
        TakeIn(finished(n, Now()));
        if fails(n) {
          return Failed;
        }
        n := n + 1;
      }
    }

    // The finish events: the outputs of the tasks that were enqueued are complete.
    method TakeIn(ts: seq<nat>)
      requires SafeNow()
      modifies this`completed
      ensures SafeNow() && Unfinished(r, completed) <= Unfinished(r, old(completed))
      ensures forall t :: t in ts && t in enqueued && t < |r.tasks| ==> Done(r, completed, t)
      ensures |Unfinished(r, completed)| <= |Unfinished(r, old(completed))|
      ensures (exists t :: t in ts && BusyTask(r, old(Now()), t)) ==> |Unfinished(r, completed)| < |Unfinished(r, old(completed))|
    {
      hide RulesOk, Safe;
      for i := 0 to |ts|
        invariant SafeNow() && old(completed) <= completed
        invariant forall j :: 0 <= j < i && ts[j] in enqueued && ts[j] < |r.tasks| ==> Done(r, completed, ts[j])
      {
        var t := ts[i];
        if t in enqueued && t < |r.tasks| {
          FinishOk(r, Now(), log, t);
          completed := completed + set o | o in r.tasks[t].outputs;
        }
      }
      UnfinishedShrinks(r, old(completed), completed);
      if exists t :: t in ts && BusyTask(r, old(Now()), t) {
        ghost var t :| t in ts && BusyTask(r, old(Now()), t);
        UnfinishedLess(r, old(completed), completed, t);
      }
    }

    // One pass over the requested outputs. If any is left, some task is busy.
    method Pass(outputs: seq<File>, look: seq<Look>, ghost rank: seq<nat>, ghost known: set<nat>) returns (ok: bool)
      requires SafeNow() && Ranked(r, rank, known) && |look| == |r.tasks|
      requires forall o :: o in outputs ==> o in r.rule && r.rule[o] in known
      modifies this
      ensures SafeNow() && old(log) <= log && (ok ==> old(completed) <= completed)
      ensures ok ==> (forall o :: o in outputs ==> o in completed) || Busy(r, Now())
    {
      hide RulesOk, Safe, Ranked, Busy, Grew, SettledBelow;
      ok := true;
      NewPass(r, Now(), log, rank, known);
      visited := {};
      ghost var k := MaxOf(rank);
      for i := 0 to |outputs|
        invariant SafeNow() && old(log) <= log && old(completed) <= completed && SettledBelow(r, rank, Now(), k)
        invariant forall j :: 0 <= j < i ==> Settled(r, Now(), outputs[j])
      {
        ghost var before := Now();
        TaskOf(r, outputs[i], rank, known);
        ok := Schedule(outputs[i], look, rank, known, k);
        if !ok {
          return;
        }
        BusyStays(r, rank, before, Now(), rank[r.rule[outputs[i]]] + 1);
        GrewCompleted(r, rank, before, Now(), rank[r.rule[outputs[i]]] + 1);
        assert forall j :: 0 <= j < i ==> Settled(r, before, outputs[j]);
      }
    }
  }

  datatype End = Made | Failed | MissingInput | Waiting

  predicate BusyTask(r: Rules, s: State, t: nat) {
    t in s.enqueued && t < |r.tasks| && !Done(r, s.completed, t)
  }

  // Whenever some task is queued or running, a wait brings one to its end.
  ghost predicate Lively(r: Rules, finished: (nat, State) -> seq<nat>) {
    forall n: nat, s :: LivelyAt(r, finished, n, s)
  }

  predicate LivelyAt(r: Rules, finished: (nat, State) -> seq<nat>, n: nat, s: State) {
    Busy(r, s) ==> exists t :: t in finished(n, s) && BusyTask(r, s, t)
  }

  lemma LivelyNow(r: Rules, finished: (nat, State) -> seq<nat>, n: nat, s: State)
    requires Lively(r, finished) && Busy(r, s)
    ensures exists t :: t in finished(n, s) && BusyTask(r, s, t)
  {
    assert LivelyAt(r, finished, n, s);
  }

  lemma UnfinishedBound(r: Rules, completed: set<File>)
    ensures |Unfinished(r, completed)| <= |r.tasks|
  {
    BelowBound(Unfinished(r, completed), |r.tasks|);
  }

  lemma {:induction false} BelowBound(s: set<nat>, n: nat)
    requires forall t :: t in s ==> t < n
    ensures |s| <= n
    decreases n
  {
    if n > 0 {
      BelowBound(s - {n - 1}, n - 1);
    } else {
      assert s == {};
    }
  }

  lemma SubsetSize(s: set<nat>, t: set<nat>)
    requires s <= t
    ensures |s| <= |t| && (s != t ==> |s| < |t|)
  {
    assert t == s + (t - s);
    if s != t {
      assert t - s != {};
    }
  }

  lemma UnfinishedShrinks(r: Rules, a: set<File>, b: set<File>)
    requires a <= b
    ensures Unfinished(r, b) <= Unfinished(r, a) && |Unfinished(r, b)| <= |Unfinished(r, a)|
  {
    SubsetSize(Unfinished(r, b), Unfinished(r, a));
  }

  lemma UnfinishedLess(r: Rules, a: set<File>, b: set<File>, t: nat)
    requires a <= b && t < |r.tasks| && !Done(r, a, t) && Done(r, b, t)
    ensures |Unfinished(r, b)| < |Unfinished(r, a)|
  {
    UnfinishedShrinks(r, a, b);
    assert t in Unfinished(r, a) && t !in Unfinished(r, b);
    SubsetSize(Unfinished(r, b), Unfinished(r, a));
  }

  ghost function MaxOf(rank: seq<nat>): (m: nat)
    ensures forall i :: 0 <= i < |rank| ==> rank[i] < m
  {
    if rank == [] then 0
    else
      var m := MaxOf(rank[1..]);
      assert forall i :: 1 <= i < |rank| ==> rank[i] == rank[1..][i - 1];
      if rank[0] < m then m else rank[0] + 1
  }

  lemma GrewSame(r: Rules, rank: seq<nat>, s: State, k: nat)
    requires RulesOk(r) && |rank| == |r.tasks|
    ensures Grew(r, rank, s, s, k)
  {
  }

  lemma GrewCompleted(r: Rules, rank: seq<nat>, s: State, s': State, k: nat)
    requires RulesOk(r) && |rank| == |r.tasks| && Grew(r, rank, s, s', k)
    ensures s.completed <= s'.completed
  {
  }

  // Nothing of t's own rank happened below it.
  lemma NotBelow(r: Rules, rank: seq<nat>, s: State, s': State, t: nat, f: File)
    requires RulesOk(r) && |rank| == |r.tasks| && t < |r.tasks| && Grew(r, rank, s, s', rank[t])
    ensures t !in s.enqueued ==> t !in s'.enqueued
    ensures f in r.rule && r.rule[f] == t && f !in s.completed ==> f !in s'.completed
  {
  }

  lemma NewPass(r: Rules, s: State, log: seq<Entry>, rank: seq<nat>, known: set<nat>)
    requires RulesOk(r) && Safe(r, s, log) && Ranked(r, rank, known)
    ensures Safe(r, s.(visited := {}), log) && |rank| == |r.tasks|
    ensures forall k :: SettledBelow(r, rank, s.(visited := {}), k)
  {
    SafeGrows(r, s, s.completed, log);
    assert Safe(r, State({}, s.enqueued, s.completed), log);
  }

  function Unfinished(r: Rules, completed: set<File>): set<nat> {
    set t | 0 <= t < |r.tasks| && !Done(r, completed, t)
  }

  // A task finishes: its outputs are complete, and it is no longer unfinished.
  lemma FinishOk(r: Rules, s: State, log: seq<Entry>, t: nat)
    requires RulesOk(r) && Safe(r, s, log) && t in s.enqueued && t < |r.tasks|
    ensures var done := s.completed + set o | o in r.tasks[t].outputs;
            Safe(r, s.(completed := done), log) && Done(r, done, t) && Unfinished(r, done) <= Unfinished(r, s.completed) - {t}
  {
    var done := s.completed + set o | o in r.tasks[t].outputs;
    assert Logged(log, t);
    var i :| 0 <= i < |log| && log[i].task == t;
    assert EntryOk(r, s, log[i]);
    forall f | f in done && f !in s.completed
      ensures f in r.rule && r.rule[f] == t && MadeOk(r, s.(completed := done), f)
    {
    }
    SafeGrows(r, s, done, log);
    assert Safe(r, State(s.visited, s.enqueued, done), log);
    assert Done(r, done, t);
  }
}
