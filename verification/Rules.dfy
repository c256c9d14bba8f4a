/** The keep/skip policy: the configured rule list, the engine it compiles to, and the proof that
    compiling changes no decision. */
module Rules {
  import opened Domain

  datatype Entry = Entry(path: string, size: nat)

  /** Library calls the policy makes, taken as given functions. */
  datatype Lib = Lib(
    lower: string -> string,
    trim: string -> string,
    ext: string -> string,                    // extension of a path, with its dot
    validGlob: string -> bool,
    glob: (string, string) -> bool,
    size: string -> Option<int>)              // parsed human-readable size

  datatype RuleMatch = RuleMatch(exts: seq<string>, pathGlob: string, maxSize: string, minSize: string)
  datatype Rule = Rule(name: string, criteria: Option<RuleMatch>, action: string, fallback: string)

  datatype Action = Keep | Skip

  function ParseAction(lib: Lib, s: string): Option<Action> {
    var word := lib.lower(lib.trim(s));
    if word == "keep" then Some(Keep) else if word == "skip" then Some(Skip) else None
  }

  // ---------- the configured list, read directly ----------

  predicate ValidMatch(lib: Lib, rm: RuleMatch) {
    && (rm.pathGlob != "" ==> lib.validGlob(rm.pathGlob))
    && (rm.maxSize != "" ==> lib.size(rm.maxSize).Some?)
    && (rm.minSize != "" ==> lib.size(rm.minSize).Some?)
  }

  predicate IsDefault(r: Rule) { r.fallback != "" }

  predicate ValidRule(lib: Lib, r: Rule) {
    if IsDefault(r) then ParseAction(lib, r.fallback).Some?
    else ParseAction(lib, r.action).Some? && (r.criteria.Some? ==> ValidMatch(lib, r.criteria.value))
  }

  ghost predicate ValidRules(lib: Lib, rules: seq<Rule>) {
    forall r :: r in rules ==> ValidRule(lib, r)
  }

  /** Every criterion the rule names holds of the file. */
  ghost predicate Satisfies(lib: Lib, rm: RuleMatch, f: Entry)
    requires ValidMatch(lib, rm)
  {
    && (rm.exts != [] ==> exists e :: e in rm.exts && lib.lower(lib.trim(e)) == lib.lower(lib.ext(f.path)))
    && (rm.pathGlob != "" ==> lib.glob(rm.pathGlob, f.path))
    && (rm.maxSize != "" ==> f.size <= lib.size(rm.maxSize).value)
    && (rm.minSize != "" ==> lib.size(rm.minSize).value <= f.size)
  }

  ghost predicate Hits(lib: Lib, r: Rule, f: Entry)
    requires ValidRule(lib, r)
  {
    !IsDefault(r) && (r.criteria.Some? ==> Satisfies(lib, r.criteria.value, f))
  }

  ghost function RuleAction(lib: Lib, r: Rule): Action
    requires ValidRule(lib, r)
  {
    ParseAction(lib, if IsDefault(r) then r.fallback else r.action).value
  }

  /** One pass over the list: the first rule hit decides, and default entries passed on the way
      replace the fallback. */
  ghost function Scan(lib: Lib, rules: seq<Rule>, f: Entry, fallback: Action): Action
    requires ValidRules(lib, rules)
  {
    if rules == [] then fallback
    else if Hits(lib, rules[0], f) then RuleAction(lib, rules[0])
    else Scan(lib, rules[1..], f, if IsDefault(rules[0]) then RuleAction(lib, rules[0]) else fallback)
  }

  /** What the configuration says about a file. */
  ghost function Interpret(lib: Lib, rules: seq<Rule>, f: Entry): Action
    requires ValidRules(lib, rules)
  {
    if rules == [] then Keep else Scan(lib, rules, f, Skip)
  }

  // ---------- the compiled engine ----------

  datatype Matcher = Matcher(exts: set<string>, glob: string, maxSize: Option<int>, minSize: Option<int>)
  datatype CompiledRule = CompiledRule(matcher: Matcher, action: Action)
  datatype Engine = KeepAll | Engine(rules: seq<CompiledRule>, defaultAct: Action)

  predicate Matches(lib: Lib, m: Matcher, f: Entry) {
    && (m.exts != {} ==> lib.lower(lib.ext(f.path)) in m.exts)
    && (m.glob != "" ==> lib.glob(m.glob, f.path))
    && (m.maxSize.Some? ==> f.size <= m.maxSize.value)
    && (m.minSize.Some? ==> m.minSize.value <= f.size)
  }

  function FirstHit(lib: Lib, rules: seq<CompiledRule>, f: Entry): Option<Action> {
    if rules == [] then None
    else if Matches(lib, rules[0].matcher, f) then Some(rules[0].action)
    else FirstHit(lib, rules[1..], f)
  }

  function Decide(lib: Lib, engine: Engine, f: Entry): Action {
    match engine
    case KeepAll => Keep
    case Engine(rules, defaultAct) =>
      match FirstHit(lib, rules, f)
      case Some(action) => action
      case None => defaultAct
  }

  method CompileMatch(lib: Lib, criteria: Option<RuleMatch>) returns (m: Option<Matcher>)
    ensures m.Some? <==> (criteria.Some? ==> ValidMatch(lib, criteria.value))
    ensures m.Some? ==> forall f :: Matches(lib, m.value, f) <==> (criteria.Some? ==> Satisfies(lib, criteria.value, f))
    ensures m.Some? && criteria == None ==> forall f :: Matches(lib, m.value, f)
    ensures m.Some? && criteria != None ==> forall f :: Matches(lib, m.value, f) <==>
      var rm := criteria.value;
      && (rm.exts == [] ||
          exists k :: 0 <= k < |rm.exts| && lib.lower(lib.trim(rm.exts[k])) == lib.lower(lib.ext(f.path)))
      && (rm.pathGlob == "" || lib.glob(rm.pathGlob, f.path))
      && (rm.maxSize == "" || f.size <= lib.size(rm.maxSize).value)
      && (rm.minSize == "" || f.size >= lib.size(rm.minSize).value)
    ensures m.None? <==>
      && criteria.Some?
      && (|| (criteria.value.pathGlob != "" && !lib.validGlob(criteria.value.pathGlob))
          || (criteria.value.maxSize != "" && lib.size(criteria.value.maxSize) == None)
          || (criteria.value.minSize != "" && lib.size(criteria.value.minSize) == None))
  {
    var result := Matcher({}, "", None, None);
    if criteria.None? { return Some(result); }
    var rm := criteria.value;
    var exts: set<string> := {};
    for i := 0 to |rm.exts|
      invariant forall x :: x in exts <==> exists k :: 0 <= k < i && lib.lower(lib.trim(rm.exts[k])) == x
    {
      exts := exts + {lib.lower(lib.trim(rm.exts[i]))};
    }
    result := result.(exts := exts);
    if rm.exts != [] { assert lib.lower(lib.trim(rm.exts[0])) in exts; }
    if rm.pathGlob != "" {
      if !lib.validGlob(rm.pathGlob) { return None; }
      result := result.(glob := rm.pathGlob);
    }
    if rm.maxSize != "" {
      var n := lib.size(rm.maxSize);
      if n.None? { return None; }
      result := result.(maxSize := n);
    }
    if rm.minSize != "" {
      var n := lib.size(rm.minSize);
      if n.None? { return None; }
      result := result.(minSize := n);
    }
    m := Some(result);
  }

  lemma {:induction false} FirstHitSnoc(lib: Lib, rules: seq<CompiledRule>, r: CompiledRule, f: Entry)
    ensures FirstHit(lib, rules + [r], f) ==
      if FirstHit(lib, rules, f).Some? then FirstHit(lib, rules, f)
      else if Matches(lib, r.matcher, f) then Some(r.action) else None
  {
    if rules != [] {
      assert (rules + [r])[1..] == rules[1..] + [r];
      FirstHitSnoc(lib, rules[1..], r, f);
    }
  }

  // ---------- what an engine for a list answers ----------

  /** The rule's action, or default, is this word. */
  predicate Says(lib: Lib, r: Rule, word: string) {
    lib.lower(lib.trim(if r.fallback != "" then r.fallback else r.action)) == word
  }

  /** An answer is what the entry's word says. */
  ghost predicate Answers(lib: Lib, r: Rule, answer: Action) {
    (answer == Skip <==> Says(lib, r, "skip")) && (answer == Keep <==> Says(lib, r, "keep"))
  }

  /** Entry i is the first that is no default and hits the file. */
  ghost predicate FirstToHit(lib: Lib, rules: seq<Rule>, f: Entry, i: int)
    requires ValidRules(lib, rules)
  {
    && 0 <= i < |rules| && rules[i].fallback == "" && Hits(lib, rules[i], f)
    && forall j :: 0 <= j < i ==> rules[j].fallback != "" || !Hits(lib, rules[j], f)
  }

  ghost predicate LastDefault(rules: seq<Rule>, i: int) {
    0 <= i < |rules| && rules[i].fallback != "" && forall j :: i < j < |rules| ==> rules[j].fallback == ""
  }

  /** What an engine answers about a file is what the first entry that hits it says; when none does, what the last
      default says; without a default it is Skip, and for no entries at all Keep. */
  ghost predicate Obeys(lib: Lib, rules: seq<Rule>, f: Entry, answer: Action)
    requires ValidRules(lib, rules)
  {
    && (rules == [] ==> answer == Keep)
    && (forall i :: FirstToHit(lib, rules, f, i) ==> Answers(lib, rules[i], answer))
    && ((forall i :: !FirstToHit(lib, rules, f, i)) ==>
          && (forall i :: LastDefault(rules, i) ==> Answers(lib, rules[i], answer))
          && (rules != [] && (forall i :: 0 <= i < |rules| ==> rules[i].fallback == "") ==> answer == Skip))
  }

  lemma ActionIsSaid(lib: Lib, r: Rule)
    requires ValidRule(lib, r)
    ensures Answers(lib, r, RuleAction(lib, r))
  {
  }

  /** An entry is valid if it says one of the two words and, unless it is a default, its match block is valid. */
  predicate WellWritten(lib: Lib, r: Rule) {
    && (Says(lib, r, "keep") || Says(lib, r, "skip"))
    && (r.fallback == "" && r.criteria != None ==> ValidMatch(lib, r.criteria.value))
  }

  lemma ValidIsWellWritten(lib: Lib, r: Rule)
    ensures ValidRule(lib, r) <==> WellWritten(lib, r)
  {
  }

  lemma FirstToHitCons(lib: Lib, rules: seq<Rule>, f: Entry, i: int)
    requires ValidRules(lib, rules) && rules != [] && !Hits(lib, rules[0], f)
    ensures FirstToHit(lib, rules, f, i) <==> FirstToHit(lib, rules[1..], f, i - 1)
  {
    if FirstToHit(lib, rules[1..], f, i - 1) {
      forall j | 0 <= j < i ensures rules[j].fallback != "" || !Hits(lib, rules[j], f) {
        if j > 0 { assert rules[j] == rules[1..][j - 1]; }
      }
    }
  }

  lemma {:induction false} ScanObeys(lib: Lib, rules: seq<Rule>, f: Entry, fallback: Action)
    requires ValidRules(lib, rules)
    ensures forall i :: FirstToHit(lib, rules, f, i) ==> Answers(lib, rules[i], Scan(lib, rules, f, fallback))
    ensures (forall i :: !FirstToHit(lib, rules, f, i)) ==>
      && (forall i :: LastDefault(rules, i) ==> Answers(lib, rules[i], Scan(lib, rules, f, fallback)))
      && ((forall i :: 0 <= i < |rules| ==> rules[i].fallback == "") ==> Scan(lib, rules, f, fallback) == fallback)
  {
    if rules != [] {
      var next := if IsDefault(rules[0]) then RuleAction(lib, rules[0]) else fallback;
      var rest, answer := rules[1..], Scan(lib, rules, f, fallback);
      ActionIsSaid(lib, rules[0]);
      if Hits(lib, rules[0], f) {
        assert FirstToHit(lib, rules, f, 0);
      } else {
        ScanObeys(lib, rest, f, next);
        forall i ensures FirstToHit(lib, rules, f, i) <==> FirstToHit(lib, rest, f, i - 1) {
          FirstToHitCons(lib, rules, f, i);
        }
        assert forall i :: FirstToHit(lib, rest, f, i) ==> FirstToHit(lib, rules, f, i + 1);
        forall i | i > 0 && LastDefault(rules, i) ensures LastDefault(rest, i - 1) { }
      }
    }
  }

  lemma InterpretObeys(lib: Lib, rules: seq<Rule>, f: Entry)
    requires ValidRules(lib, rules)
    ensures Obeys(lib, rules, f, Interpret(lib, rules, f))
  {
    ScanObeys(lib, rules, f, Skip);
  }

  /** Compilation succeeds exactly when every entry is valid, names the first invalid one otherwise,
      and the engine it builds decides every file as the configured list does. */
  method Compile(lib: Lib, rules: seq<Rule>) returns (engine: Option<Engine>, bad: nat)
    ensures engine.Some? <==> ValidRules(lib, rules)
    ensures engine.Some? ==> forall f :: Decide(lib, engine.value, f) == Interpret(lib, rules, f)
    ensures engine.Some? ==> forall f :: Obeys(lib, rules, f, Decide(lib, engine.value, f))
    ensures engine.None? ==> bad < |rules| && !ValidRule(lib, rules[bad]) && ValidRules(lib, rules[..bad])
    ensures engine.Some? <==> forall i :: 0 <= i < |rules| ==> WellWritten(lib, rules[i])
    ensures engine.None? ==> !WellWritten(lib, rules[bad]) && forall i :: 0 <= i < bad ==> WellWritten(lib, rules[i])
  {
    hide Obeys, WellWritten;
    forall r { ValidIsWellWritten(lib, r); }
    if |rules| == 0 {
      forall f { InterpretObeys(lib, rules, f); }
      return Some(KeepAll), 0;
    }
    var compiled: seq<CompiledRule> := [];
    var defaultAct := Skip;
    for i := 0 to |rules|
      invariant ValidRules(lib, rules[..i])
      invariant forall f :: ValidRules(lib, rules) ==>
        Scan(lib, rules, f, Skip) ==
        match FirstHit(lib, compiled, f) case Some(a) => a case None => Scan(lib, rules[i..], f, defaultAct)
    {
      var r := rules[i];
      assert r in rules;
      assert rules[i..][0] == r && rules[i..][1..] == rules[i + 1..];
      assert rules[..i + 1] == rules[..i] + [r];
      if r.fallback != "" {
        var act := ParseAction(lib, r.fallback);
        if act.None? { return None, i; }
        defaultAct := act.value;
      } else {
        var act := ParseAction(lib, r.action);
        if act.None? { return None, i; }
        var m := CompileMatch(lib, r.criteria);
        if m.None? { return None, i; }
        forall f { FirstHitSnoc(lib, compiled, CompiledRule(m.value, act.value), f); }
        compiled := compiled + [CompiledRule(m.value, act.value)];
      }
    }
    assert rules[..|rules|] == rules;
    engine, bad := Some(Engine(compiled, defaultAct)), 0;
    forall f ensures Obeys(lib, rules, f, Decide(lib, engine.value, f)) { InterpretObeys(lib, rules, f); }
  }

  // ---------- rewriting a rule list ----------

  ghost predicate NoDefaults(rules: seq<Rule>) { forall r :: r in rules ==> !IsDefault(r) }

  /** Some rule of the list hits the file. */
  ghost predicate SomeHit(lib: Lib, rules: seq<Rule>, f: Entry)
    requires ValidRules(lib, rules)
  {
    exists i :: 0 <= i < |rules| && Hits(lib, rules[i], f)
  }

  /** Scanning a concatenation: a hit on the left decides; otherwise the right is scanned with the
      fallback the left leaves behind. */
  ghost function Leftover(lib: Lib, rules: seq<Rule>, fallback: Action): Action
    requires ValidRules(lib, rules)
  {
    if rules == [] then fallback
    else Leftover(lib, rules[1..], if IsDefault(rules[0]) then RuleAction(lib, rules[0]) else fallback)
  }

  lemma {:induction false} ScanAppend(lib: Lib, a: seq<Rule>, b: seq<Rule>, f: Entry, fallback: Action)
    requires ValidRules(lib, a) && ValidRules(lib, b)
    ensures ValidRules(lib, a + b)
    ensures Scan(lib, a + b, f, fallback) ==
      if SomeHit(lib, a, f) then Scan(lib, a, f, fallback) else Scan(lib, b, f, Leftover(lib, a, fallback))
    decreases |a|
  {
    if a == [] {
      assert a + b == b;
    } else {
      assert (a + b)[1..] == a[1..] + b;
      SomeHitCons(lib, a, f);
      ScanAppend(lib, a[1..], b, f, if IsDefault(a[0]) then RuleAction(lib, a[0]) else fallback);
    }
  }

  lemma SomeHitCons(lib: Lib, a: seq<Rule>, f: Entry)
    requires ValidRules(lib, a) && a != []
    ensures SomeHit(lib, a, f) <==> Hits(lib, a[0], f) || SomeHit(lib, a[1..], f)
  {
    if i :| 0 <= i < |a| && Hits(lib, a[i], f) {
      if i > 0 { assert Hits(lib, a[1..][i - 1], f); }
    }
    if i :| 0 <= i < |a| - 1 && Hits(lib, a[1..][i], f) { assert Hits(lib, a[i + 1], f); }
  }

  lemma {:induction false} HitIgnoresFallback(lib: Lib, a: seq<Rule>, f: Entry, x: Action, y: Action)
    requires ValidRules(lib, a) && SomeHit(lib, a, f)
    ensures Scan(lib, a, f, x) == Scan(lib, a, f, y)
  {
    SomeHitCons(lib, a, f);
    if !Hits(lib, a[0], f) && !IsDefault(a[0]) { HitIgnoresFallback(lib, a[1..], f, x, y); }
  }

  lemma {:induction false} LeftoverWithoutDefaults(lib: Lib, rules: seq<Rule>, fallback: Action)
    requires ValidRules(lib, rules) && NoDefaults(rules)
    ensures Leftover(lib, rules, fallback) == fallback
  {
    if rules != [] { LeftoverWithoutDefaults(lib, rules[1..], fallback); }
  }

  /** A sole default entry may stand anywhere in the list. */
  lemma DefaultMayMove(lib: Lib, a: seq<Rule>, d: Rule, b: seq<Rule>, f: Entry)
    requires ValidRules(lib, a) && ValidRules(lib, b) && ValidRule(lib, d) && IsDefault(d)
    requires NoDefaults(a) && NoDefaults(b)
    ensures ValidRules(lib, a + [d] + b) && ValidRules(lib, [d] + (a + b))
    ensures Interpret(lib, a + [d] + b, f) == Interpret(lib, [d] + (a + b), f)
  {
    assert a + [d] + b == a + ([d] + b);
    assert ([d] + b)[1..] == b && ([d] + (a + b))[1..] == a + b;
    ScanAppend(lib, a, [d] + b, f, Skip);
    ScanAppend(lib, a, b, f, RuleAction(lib, d));
    if SomeHit(lib, a, f) { HitIgnoresFallback(lib, a, f, Skip, RuleAction(lib, d)); }
    LeftoverWithoutDefaults(lib, a, Skip);
    LeftoverWithoutDefaults(lib, a, RuleAction(lib, d));
  }

  /** Nothing after a rule that hits a file can matter to that file; so nothing after a rule that hits every
      file, be its match block absent or empty, can matter at all. */
  lemma RulesAfterHitAreDead(lib: Lib, a: seq<Rule>, r: Rule, b: seq<Rule>, f: Entry)
    requires ValidRules(lib, a) && ValidRules(lib, b) && ValidRule(lib, r) && Hits(lib, r, f)
    ensures ValidRules(lib, a + [r] + b) && ValidRules(lib, a + [r])
    ensures Interpret(lib, a + [r] + b, f) == Interpret(lib, a + [r], f)
  {
    assert (a + [r])[|a|] == r;
    ScanAppend(lib, a + [r], b, f, Skip);
  }

  /** Swapping two adjacent rules changes the decision for a file exactly when no earlier rule hits it
      and both rules hit it with different actions. */
  lemma SwapChangesIff(lib: Lib, a: seq<Rule>, r1: Rule, r2: Rule, b: seq<Rule>, f: Entry)
    requires ValidRules(lib, a) && ValidRules(lib, b) && ValidRule(lib, r1) && ValidRule(lib, r2)
    requires !IsDefault(r1) && !IsDefault(r2)
    ensures ValidRules(lib, a + [r1, r2] + b) && ValidRules(lib, a + [r2, r1] + b)
    ensures Interpret(lib, a + [r1, r2] + b, f) != Interpret(lib, a + [r2, r1] + b, f) <==>
      !SomeHit(lib, a, f) && Hits(lib, r1, f) && Hits(lib, r2, f) && RuleAction(lib, r1) != RuleAction(lib, r2)
  {
    assert a + [r1, r2] + b == a + ([r1, r2] + b) && a + [r2, r1] + b == a + ([r2, r1] + b);
    ScanAppend(lib, a, [r1, r2] + b, f, Skip);
    ScanAppend(lib, a, [r2, r1] + b, f, Skip);
    SwapHead(lib, r1, r2, b, f, Leftover(lib, a, Skip));
    SwapHead(lib, r2, r1, b, f, Leftover(lib, a, Skip));
  }

  lemma {:induction false} SwapHead(lib: Lib, r1: Rule, r2: Rule, b: seq<Rule>, f: Entry, fallback: Action)
    requires ValidRules(lib, b) && ValidRule(lib, r1) && ValidRule(lib, r2) && !IsDefault(r1) && !IsDefault(r2)
    ensures ValidRules(lib, [r1, r2] + b)
    ensures Scan(lib, [r1, r2] + b, f, fallback) ==
      if Hits(lib, r1, f) then RuleAction(lib, r1)
      else if Hits(lib, r2, f) then RuleAction(lib, r2) else Scan(lib, b, f, fallback)
  {
    assert ([r1, r2] + b)[1..] == [r2] + b && ([r2] + b)[1..] == b;
  }
}
