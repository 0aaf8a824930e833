/** Tool names: how the registry exposes them, how a call finds its way back, and what the policy
    chain reads from them (crates/skill-registry/src/lib.rs, builtin_executor.rs, permissions.rs). */
module Routing {
  import opened Prelude
  import opened Messages
  import opened Strings
  import opened Permissions

  datatype ToolDefinition = ToolDefinition(name: string, description: string, schema: Json)

  datatype Skill = Skill(name: string, tools: seq<ToolDefinition>)

  const BUILTINS: set<string> := {
    "bash", "file_read", "file_write", "file_edit", "glob", "grep",
    "memory_store", "memory_fetch", "memory_list", "memory_delete"}

  function Exposed(skill: string, tool: string): string {
    skill + "__" + tool
  }

  function SkillTools(skill: Skill): seq<ToolDefinition> {
    seq(|skill.tools|, j requires 0 <= j < |skill.tools| =>
      skill.tools[j].(name := Exposed(skill.name, skill.tools[j].name)))
  }

  function RegistryTools(skills: seq<Skill>): seq<ToolDefinition> {
    if skills == [] then [] else RegistryTools(skills[..|skills| - 1]) + SkillTools(skills[|skills| - 1])
  }

  /** `SkillRegistry::all_tools`. */
  method AllTools(skills: seq<Skill>) returns (all: seq<ToolDefinition>)
    ensures all == RegistryTools(skills)
  {
    all := [];
    for i := 0 to |skills|
      invariant all == RegistryTools(skills[..i])
    {
      var skill := skills[i];
      for j := 0 to |skill.tools|
        invariant all == RegistryTools(skills[..i]) + SkillTools(skill)[..j]
      {
        var tool := skill.tools[j];
        all := all + [ToolDefinition(Exposed(skill.name, tool.name), tool.description, tool.schema)];
      }
      assert skills[..i + 1][..i] == skills[..i];
    }
    assert skills[..|skills|] == skills;
  }

  /** Tool j of skill i is listed behind all tools of the skills before it and j of its own, under its
      skill's name and its own, with its description and schema; and nothing else is listed. */
  lemma {:induction false} RegistryToolAt(skills: seq<Skill>, i: nat, j: nat)
    requires i < |skills| && j < |skills[i].tools|
    ensures var all, tool, k := RegistryTools(skills), skills[i].tools[j], |RegistryTools(skills[..i])| + j;
            && k < |all|
            && all[k] == ToolDefinition(skills[i].name + "__" + tool.name, tool.description, tool.schema)
            && |RegistryTools(skills[..i + 1])| == |RegistryTools(skills[..i])| + |skills[i].tools|
    decreases |skills|
  {
    assert skills[..i + 1][..i] == skills[..i];
    if i + 1 == |skills| {
      assert skills[..i + 1] == skills;
    } else {
      var front := skills[..|skills| - 1];
      assert front[..i] == skills[..i];
      RegistryToolAt(front, i, j);
    }
  }

  datatype Route = Builtin(name: string) | ToSkill(index: nat, tool: string) | NoPrefix | UnknownSkill(name: string)

  /** Index of the first skill of that name. */
  function FindSkill(skills: seq<Skill>, name: string, from: nat): Option<nat>
    decreases |skills| - from
  {
    if from >= |skills| then None
    else if skills[from].name == name then Some(from)
    else FindSkill(skills, name, from + 1)
  }

  /** `SkillRegistry::dispatch`. */
  function Dispatch(skills: seq<Skill>, name: string): Route {
    match SplitOnce(name, "__")
    case None => NoPrefix
    case Some((skill, tool)) =>
      match FindSkill(skills, skill, 0)
      case None => UnknownSkill(skill)
      case Some(i) => ToSkill(i, tool)
  }

  /** `BuiltinExecutor::execute`: built-in tools first. */
  function RouteCall(skills: seq<Skill>, name: string): Route {
    if name in BUILTINS then Builtin(name) else Dispatch(skills, name)
  }

  /** The ten built-in tools come first; every other name goes to the registry. */
  lemma BuiltinsComeFirst(skills: seq<Skill>, name: string)
    ensures RouteCall(skills, name) ==
            if || name == "bash" || name == "file_read" || name == "file_write" || name == "file_edit"
               || name == "glob" || name == "grep" || name == "memory_store" || name == "memory_fetch"
               || name == "memory_list" || name == "memory_delete"
            then Builtin(name) else Dispatch(skills, name)
  {
    hide Dispatch;
  }

  /** Where any name goes: to the first skill named before the first separator, or nowhere. */
  lemma DispatchDecides(skills: seq<Skill>, name: string)
    ensures Dispatch(skills, name).NoPrefix? <==> !Contains(name, "__")
    ensures match Dispatch(skills, name)
            case ToSkill(i, tool) =>
              && i < |skills| && name == Exposed(skills[i].name, tool)
              && (forall k: nat :: k < |skills[i].name| ==> !OccursAt(name, "__", k))
              && (forall k :: 0 <= k < i ==> skills[k].name != skills[i].name)
            case UnknownSkill(skill) =>
              && skill + "__" <= name
              && (forall k: nat :: k < |skill| ==> !OccursAt(name, "__", k))
              && (forall k :: 0 <= k < |skills| ==> skills[k].name != skill)
            case NoPrefix => true
            case Builtin(_) => false
  {
    var split := SplitOnce(name, "__");
    if split.Some? {
      FindSkillFinds(skills, split.value.0, 0);
    }
  }

  lemma {:induction false} FindSkillFinds(skills: seq<Skill>, name: string, from: nat)
    requires from <= |skills|
    ensures match FindSkill(skills, name, from)
            case Some(i) =>
              && from <= i < |skills| && skills[i].name == name
              && forall k :: from <= k < i ==> skills[k].name != name
            case None => forall k :: from <= k < |skills| ==> skills[k].name != name
    decreases |skills| - from
  {
    if from < |skills| {
      FindSkillFinds(skills, name, from + 1);
    }
  }

  // ---------------------------------------------------------------- names that split back

  predicate PlainSkillName(s: string) {
    !Contains(s, "__") && (s != "" ==> s[|s| - 1] != '_')
  }

  lemma PlainNameSplits(skill: string, tool: string)
    requires PlainSkillName(skill)
    ensures SplitOnce(Exposed(skill, tool), "__") == Some((skill, tool))
  {
    var full := Exposed(skill, tool);
    forall i: nat | i < |skill| ensures !OccursAt(full, "__", i) {
      if OccursAt(full, "__", i) {
        assert full[i..i + 2][0] == '_' && full[i..i + 2][1] == '_';
        if i + 1 < |skill| {
          assert skill[i..i + 2] == full[i..i + 2];
          assert OccursAt(skill, "__", i);
        }
      }
    }
    SplitOnceIs(skill, "__", tool);
  }

  /** Splitting at the first separator recovers skill and tool, for every tool, exactly when the
      skill name contains no separator and does not end in an underscore. */
  lemma SplitsBackIff(skill: string)
    ensures PlainSkillName(skill) <==> forall tool :: SplitOnce(Exposed(skill, tool), "__") == Some((skill, tool))
  {
    if PlainSkillName(skill) {
      forall tool ensures SplitOnce(Exposed(skill, tool), "__") == Some((skill, tool)) {
        PlainNameSplits(skill, tool);
      }
    } else {
      var full := Exposed(skill, "t");
      var i: nat;
      if Contains(skill, "__") {
        i :| i <= |skill| && OccursAt(skill, "__", i);
        assert full[i..i + 2] == skill[i..i + 2];
      } else {
        i := |skill| - 1;
        assert full[i..i + 2] == "__";
      }
      assert OccursAt(full, "__", i) && i < |skill|;
    }
  }

  // ---------------------------------------------------------------- routing is exact

  /** Names the database and the tool servers are expected to supply. */
  ghost predicate WellNamed(skills: seq<Skill>) {
    && (forall i :: 0 <= i < |skills| ==> PlainSkillName(skills[i].name))
    && (forall i, j :: 0 <= i < j < |skills| ==> skills[i].name != skills[j].name)
    && (forall i :: 0 <= i < |skills| ==> DistinctTools(skills[i]))
  }

  ghost predicate DistinctTools(skill: Skill) {
    forall j, k :: 0 <= j < k < |skill.tools| ==> skill.tools[j].name != skill.tools[k].name
  }

  lemma FindSkillIs(skills: seq<Skill>, i: nat, from: nat)
    requires from <= i < |skills| && forall k :: from <= k < i ==> skills[k].name != skills[i].name
    ensures FindSkill(skills, skills[i].name, from) == Some(i)
    decreases i - from
  {
    if from < i {
      FindSkillIs(skills, i, from + 1);
    }
  }

  lemma ExposedIsNoBuiltin(skill: string, tool: string)
    ensures Exposed(skill, tool) !in BUILTINS && !ReadsOnly(Exposed(skill, tool))
  {
    var full, n := Exposed(skill, tool), |skill|;
    assert full[n] == '_' && full[n + 1] == '_';
    if full in BUILTINS {
      NoDoubleUnderscore(full, n);
    }
    assert ReadsOnly(full) ==> full in BUILTINS;
  }

  lemma NoDoubleUnderscore(name: string, i: nat)
    requires name in BUILTINS && i + 1 < |name|
    ensures name[i] != '_' || name[i + 1] != '_'
  {
  }

  /** Every exposed registry name is routed to the skill and bare tool it was made from; no built-in
      shadows it. */
  lemma EveryToolRoutesHome(skills: seq<Skill>, i: nat, j: nat)
    requires WellNamed(skills) && i < |skills| && j < |skills[i].tools|
    ensures RouteCall(skills, Exposed(skills[i].name, skills[i].tools[j].name)) == ToSkill(i, skills[i].tools[j].name)
  {
    ExposedIsNoBuiltin(skills[i].name, skills[i].tools[j].name);
    PlainNameSplits(skills[i].name, skills[i].tools[j].name);
    FindSkillIs(skills, i, 0);
  }

  function Names(tools: seq<ToolDefinition>): seq<string> {
    seq(|tools|, i requires 0 <= i < |tools| => tools[i].name)
  }

  ghost predicate NoDuplicates(names: seq<string>) {
    forall i, j :: 0 <= i < j < |names| ==> names[i] != names[j]
  }

  ghost predicate FromSkill(skills: seq<Skill>, name: string, i: int) {
    0 <= i < |skills| && exists tool :: name == Exposed(skills[i].name, tool)
  }

  lemma {:induction false} RegistryNamesHaveOrigin(skills: seq<Skill>, k: nat)
    requires k < |RegistryTools(skills)|
    ensures exists i :: FromSkill(skills, RegistryTools(skills)[k].name, i)
    decreases |skills|
  {
    var n := |skills| - 1;
    var front := RegistryTools(skills[..n]);
    var name := RegistryTools(skills)[k].name;
    if k < |front| {
      RegistryNamesHaveOrigin(skills[..n], k);
      var i :| FromSkill(skills[..n], name, i);
      assert FromSkill(skills, name, i);
    } else {
      assert name == Exposed(skills[n].name, skills[n].tools[k - |front|].name);
      assert FromSkill(skills, name, n);
    }
  }

  /** All exposed names are pairwise distinct, and distinct from the built-in ones. */
  lemma {:induction false} ExposedNamesDistinct(skills: seq<Skill>)
    requires WellNamed(skills)
    ensures NoDuplicates(Names(RegistryTools(skills)))
    ensures forall name <- Names(RegistryTools(skills)) :: name !in BUILTINS
    decreases |skills|
  {
    if skills == [] {
    } else {
      var n := |skills| - 1;
      ExposedNamesDistinct(skills[..n]);
      var all := Names(RegistryTools(skills));
      var front, last := Names(RegistryTools(skills[..n])), Names(SkillTools(skills[n]));
      assert all == front + last;
      assert DistinctTools(skills[n]);
      forall k | 0 <= k < |last|
        ensures SplitOnce(last[k], "__") == Some((skills[n].name, skills[n].tools[k].name)) && last[k] !in BUILTINS
      {
        PlainNameSplits(skills[n].name, skills[n].tools[k].name);
        ExposedIsNoBuiltin(skills[n].name, skills[n].tools[k].name);
      }
      forall i, j | 0 <= i < j < |all| ensures all[i] != all[j] {
        if i < |front| <= j {
          RegistryNamesHaveOrigin(skills[..n], i);
          var s :| FromSkill(skills[..n], front[i], s);
          var tool :| front[i] == Exposed(skills[..n][s].name, tool);
          PlainNameSplits(skills[s].name, tool);
        }
      }
    }
  }

  // ---------------------------------------------------------------- what the policy reads

  lemma {:induction false} BareNameShorter(name: string)
    ensures BareName(name) == name <==> !Contains(name, "__")
    ensures |BareName(name)| <= |name|
    decreases |name|
  {
    var split := SplitOnce(name, "__");
    if split.Some? {
      BareNameShorter(split.value.1);
    }
  }

  lemma Joined(first: string, prefix: string, bare: string)
    ensures first + "__" + (prefix + "__" + bare) == (first + "__" + prefix) + "__" + bare
  {}

  /** The bare name has no separator, and stands at the end of the name, behind one if there is one. */
  lemma {:induction false} BareNameEnds(name: string) returns (prefix: string)
    ensures !Contains(BareName(name), "__")
    ensures if Contains(name, "__") then name == prefix + "__" + BareName(name) else name == BareName(name)
    decreases |name|
  {
    prefix := "";
    var split := SplitOnce(name, "__");
    if split.Some? {
      var (first, rest) := split.value;
      prefix := BareNameEnds(rest);
      hide Contains, SplitOnce;
      if Contains(rest, "__") {
        Joined(first, prefix, BareName(rest));
        prefix := first + "__" + prefix;
      } else {
        prefix := first;
      }
      hide BareName;
    }
  }

  /** The name the allow list judges is the tool the call is routed to exactly when the tool's own
      name contains no separator. */
  lemma PolicyReadsRoutedToolIff(skill: string, tool: string)
    requires PlainSkillName(skill)
    ensures BareName(Exposed(skill, tool)) == tool <==> !Contains(tool, "__")
  {
    PlainNameSplits(skill, tool);
    BareNameShorter(tool);
  }

  /** A registry tool runs without approval exactly when its command is not deny-listed and the last
      component of its own name is allow-listed, whatever skill it belongs to. */
  lemma RegistryToolAllowedIff(lower: Lowering, skill: string, tool: string, id: string, input: Json)
    requires PlainSkillName(skill)
    ensures var call := ToolCall(id, Exposed(skill, tool), input);
            Check(lower, call).Allow? <==> !CommandDenied(lower, call) && ReadsOnly(BareName(tool))
  {
    CheckDecides(lower, ToolCall(id, Exposed(skill, tool), input));
    PlainNameSplits(skill, tool);
    ExposedIsNoBuiltin(skill, tool);
  }
}
