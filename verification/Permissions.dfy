/** The policy chain of crates/agent-core/src/permissions.rs. */
module Permissions {
  import opened Prelude
  import opened Messages
  import opened Strings

  datatype PermissionCheck = Allow | Deny(reason: string) | RequiresApproval(reason: string)

  const DENY_PATTERNS: seq<string> := ["rm -rf /", "mkfs", "dd if=", ":(){:|:&};:"]
  const ALLOWED_TOOLS: set<string> := {"file_read", "glob", "grep", "memory_fetch", "memory_list"}
  const DESTRUCTIVE_PATTERNS: seq<string> := [
    "delete", "remove", "send", "drop",
    "create_pull_request", "merge_pull_request", "issue_write", "manage_event",
    "create_or_update_file", "push_files"]

  /** The library's `to_lowercase`. */
  type Lowering = string -> string

  function Command(input: Json): string {
    if input.JObject? && "command" in input.fields && input.fields["command"].JString?
    then input.fields["command"].s
    else ""
  }

  /** Pattern k occurs in `s`, and none before it does. */
  ghost predicate FirstAt(s: string, patterns: seq<string>, k: int) {
    0 <= k < |patterns| && Contains(s, patterns[k]) && forall j :: 0 <= j < k ==> !Contains(s, patterns[j])
  }

  /** First pattern of the list that occurs in `s`. */
  function FirstMatch(s: string, patterns: seq<string>): (r: Option<string>)
    ensures r.Some? ==> exists k :: FirstAt(s, patterns, k) && patterns[k] == r.value
    ensures r.None? ==> forall p <- patterns :: !Contains(s, p)
  {
    if patterns == [] then None
    else if Contains(s, patterns[0]) then
      assert FirstAt(s, patterns, 0);
      Some(patterns[0])
    else
      var r := FirstMatch(s, patterns[1..]);
      assert forall k :: FirstAt(s, patterns[1..], k) ==> FirstAt(s, patterns, k + 1);
      r
  }

  /** `name.split("__").last()`. */
  function BareName(name: string): string
    decreases |name|
  {
    match SplitOnce(name, "__")
    case None => name
    case Some((_, rest)) => BareName(rest)
  }

  function DenyListPolicy(lower: Lowering, call: ToolCall): Option<PermissionCheck> {
    match FirstMatch(lower(Command(call.input)), DENY_PATTERNS)
    case Some(p) => Some(Deny("Command matches deny-listed pattern: " + p))
    case None => None
  }

  function AllowListPolicy(call: ToolCall): Option<PermissionCheck> {
    if BareName(call.name) in ALLOWED_TOOLS || call.name in ALLOWED_TOOLS then Some(Allow) else None
  }

  function DestructivePatternPolicy(lower: Lowering, call: ToolCall): Option<PermissionCheck> {
    if FirstMatch(lower(call.name), DESTRUCTIVE_PATTERNS).Some?
    then Some(RequiresApproval("Tool '" + call.name + "' matches destructive pattern"))
    else None
  }

  function DefaultPolicy(call: ToolCall): Option<PermissionCheck> {
    Some(RequiresApproval("Tool '" + call.name + "' has no explicit permission \U{2014} requires approval"))
  }

  type Policy = ToolCall -> Option<PermissionCheck>

  function CheckChain(policies: seq<Policy>, call: ToolCall): PermissionCheck {
    if policies == [] then RequiresApproval("No policy matched")
    else
      match policies[0](call)
      case Some(result) => result
      case None => CheckChain(policies[1..], call)
  }

  function DefaultChain(lower: Lowering): seq<Policy> {
    [c => DenyListPolicy(lower, c), AllowListPolicy, c => DestructivePatternPolicy(lower, c), DefaultPolicy]
  }

  function Check(lower: Lowering, call: ToolCall): PermissionCheck {
    CheckChain(DefaultChain(lower), call)
  }

  /** The lower-cased command holds one of the four deny-listed patterns. */
  ghost predicate CommandDenied(lower: Lowering, call: ToolCall) {
    var command := lower(Command(call.input));
    || Contains(command, "rm -rf /") || Contains(command, "mkfs")
    || Contains(command, "dd if=") || Contains(command, ":(){:|:&};:")
  }

  /** One of the five tools that only read. */
  predicate ReadsOnly(tool: string) {
    tool == "file_read" || tool == "glob" || tool == "grep" || tool == "memory_fetch" || tool == "memory_list"
  }

  /** The lower-cased name holds one of the ten destructive patterns. */
  ghost predicate Destructive(lower: Lowering, call: ToolCall) {
    var name := lower(call.name);
    || Contains(name, "delete") || Contains(name, "remove") || Contains(name, "send") || Contains(name, "drop")
    || Contains(name, "create_pull_request") || Contains(name, "merge_pull_request")
    || Contains(name, "issue_write") || Contains(name, "manage_event")
    || Contains(name, "create_or_update_file") || Contains(name, "push_files")
  }

  lemma CommandIs(command: string, fields: map<string, Json>)
    ensures Command(JObject(fields["command" := JString(command)])) == command
    ensures "command" !in fields || !fields["command"].JString? ==> Command(JObject(fields)) == ""
  {}

  lemma {:induction false} MatchIff(s: string, patterns: seq<string>)
    ensures FirstMatch(s, patterns).Some? <==> exists k :: 0 <= k < |patterns| && Contains(s, patterns[k])
  {
    hide Contains;
    if k :| 0 <= k < |patterns| && Contains(s, patterns[k]) {
      assert patterns[k] in patterns;
    }
  }

  lemma DeniedIff(lower: Lowering, call: ToolCall)
    ensures DenyListPolicy(lower, call).Some? <==> CommandDenied(lower, call)
  {
    var command := lower(Command(call.input));
    MatchIff(command, DENY_PATTERNS);
    hide Contains, FirstMatch, Command;
    assert Contains(command, DENY_PATTERNS[0]) <==> Contains(command, "rm -rf /");
    assert Contains(command, DENY_PATTERNS[1]) <==> Contains(command, "mkfs");
    assert Contains(command, DENY_PATTERNS[2]) <==> Contains(command, "dd if=");
    assert Contains(command, DENY_PATTERNS[3]) <==> Contains(command, ":(){:|:&};:");
  }

  lemma AllowedIff(call: ToolCall)
    ensures AllowListPolicy(call) ==
            if ReadsOnly(BareName(call.name)) || ReadsOnly(call.name) then Some(Allow) else None
  {
    hide BareName;
  }

  lemma DestructiveIff(lower: Lowering, call: ToolCall)
    ensures DestructivePatternPolicy(lower, call).Some? <==> Destructive(lower, call)
  {
    var name := lower(call.name);
    MatchIff(name, DESTRUCTIVE_PATTERNS);
    hide Contains, FirstMatch;
    var hit := (k: int) => 0 <= k < 10 && Contains(name, DESTRUCTIVE_PATTERNS[k]);
    assert (exists k :: 0 <= k < |DESTRUCTIVE_PATTERNS| && Contains(name, DESTRUCTIVE_PATTERNS[k])) <==>
           hit(0) || hit(1) || hit(2) || hit(3) || hit(4) || hit(5) || hit(6) || hit(7) || hit(8) || hit(9);
  }

  /** What the chain comes to, layer by layer. */
  lemma ChainIs(lower: Lowering, call: ToolCall)
    ensures Check(lower, call) ==
            if DenyListPolicy(lower, call).Some? then DenyListPolicy(lower, call).value
            else if AllowListPolicy(call).Some? then AllowListPolicy(call).value
            else if DestructivePatternPolicy(lower, call).Some? then DestructivePatternPolicy(lower, call).value
            else DefaultPolicy(call).value
  {
    var chain := DefaultChain(lower);
    ChainStep(chain, call);
    ChainStep(chain[1..], call);
    ChainStep(chain[2..], call);
    ChainStep(chain[3..], call);
    hide CheckChain, DenyListPolicy, AllowListPolicy, DestructivePatternPolicy;
    assert chain[1..][1..] == chain[2..] && chain[2..][1..] == chain[3..];
    assert chain[1..][0] == chain[1] && chain[2..][0] == chain[2] && chain[3..][0] == chain[3];
  }

  lemma ChainStep(policies: seq<Policy>, call: ToolCall)
    requires policies != []
    ensures CheckChain(policies, call) ==
            match policies[0](call)
            case Some(result) => result
            case None => CheckChain(policies[1..], call)
  {}

  /** The chain denies on the command alone, allows only the five reading tools, by their full name or the
      last part of it, if not denied, and asks for everything else: whether a name looks destructive decides
      the reason given, never the verdict. */
  lemma CheckDecides(lower: Lowering, call: ToolCall)
    ensures Check(lower, call).Deny? <==> CommandDenied(lower, call)
    ensures Check(lower, call).Allow? <==>
            !CommandDenied(lower, call) && (ReadsOnly(BareName(call.name)) || ReadsOnly(call.name))
    ensures Check(lower, call).RequiresApproval? ==>
              Check(lower, call).reason ==
              if Destructive(lower, call) then "Tool '" + call.name + "' matches destructive pattern"
              else "Tool '" + call.name + "' has no explicit permission \U{2014} requires approval"
  {
    ChainIs(lower, call);
    DeniedIff(lower, call);
    AllowedIff(call);
    DestructiveIff(lower, call);
    hide AllowListPolicy, ReadsOnly, Check, CommandDenied, Destructive, FirstMatch, BareName;
  }

  /** The tools that run commands or change files or memory are never allowed outright. */
  lemma ChangingToolsAreNeverAllowed(lower: Lowering, call: ToolCall)
    requires call.name in {"bash", "file_write", "file_edit", "memory_store", "memory_delete"}
    ensures !Check(lower, call).Allow?
  {
    CheckDecides(lower, call);
    hide CommandDenied, Check;
    assert !Contains(call.name, "__") by {
      forall i ensures !OccursAt(call.name, "__", i) {
        if OccursAt(call.name, "__", i) {
          OccursCharwise(call.name, "__", i, 0);
          OccursCharwise(call.name, "__", i, 1);
        }
      }
    }
    assert BareName(call.name) == call.name;
    hide BareName, Contains;
  }

  /** The reason of a denial names the first pattern found. */
  lemma DenialNamesPattern(lower: Lowering, call: ToolCall)
    requires Check(lower, call).Deny?
    ensures exists k :: FirstAt(lower(Command(call.input)), DENY_PATTERNS, k)
                        && Check(lower, call).reason == "Command matches deny-listed pattern: " + DENY_PATTERNS[k]
  {
    ChainIs(lower, call);
    hide Check, FirstAt, Contains;
  }
}
