/** What becomes of the other calls: apply_patch, process, the tools that stay as they are,
    and the calls that cannot be migrated. */
module CallMeanings {
  import opened Plans
  import opened Text
  import opened ToolCalls
  import opened HereDocs
  import opened Migrations
  import opened EditCalls

  // ---- apply_patch ------------------------------------------------------------------------

  /** The patch of a call: its input, even an empty one, and otherwise its patch. */
  function WantedPatch(args: Args): string {
    if Get(args, "input").Some? then Get(args, "input").value else TextAt(args, "patch")
  }

  lemma PatchIsNoOther()
    ensures "apply_patch" != "ls" && "apply_patch" != "grep" && "apply_patch" != "find"
  {
    assert "apply_patch"[0] == 'a';
  }

  lemma PatchText(d: string, body: string)
    ensures "apply_patch <<'" + d + "'\n" + body == "apply_patch <<'" + (d + ("'\n" + body))
  {
  }

  /** An apply_patch call becomes the same command reading a here-document. Its delimiter is the
      first of PATCH, PATCH_1, PATCH_2, ... that is no line of the patch, and the document is the
      patch without trailing white space, unless that ends in a line that is the delimiter. */
  lemma PatchMeans(env: Env, args: Args) returns (d: string, k: nat, body: string)
    requires env.profile.OpenClawFull? && !AllSpace(WantedPatch(args))
    ensures TransformArgs(env, "apply_patch", args)
         == Rewritten("exec", [("command", "apply_patch <<'" + (d + ("'\n" + body)))])
    ensures d == (if k == 0 then "PATCH" else "PATCH" + "_" + Decimal(k)) && d !in Lines(WantedPatch(args))
    ensures k > 0 ==> "PATCH" in Lines(WantedPatch(args))
    ensures forall j :: 0 < j < k ==> "PATCH" + "_" + Decimal(j) in Lines(WantedPatch(args))
    ensures ReadHereDoc(Lines(body), d) == Some(RStrip(WantedPatch(args)) + "\n")
      <==> LastLine(RStrip(WantedPatch(args))) != d
  {
    var patch := WantedPatch(args);
    d, k, body := Delimiter(patch, PATCH_BASE), FreeFrom(patch, PATCH_BASE, 0), HereDocBody(patch);
    PatchIsNoOther();
    StripOfBlank(patch);
    PatchText(d, body);
    assert (if Has(args, "input") then Get(args, "input").value else GetOr(args, "patch", "")) == patch;
    assert TransformArgs(env, "apply_patch", args) == Command(PatchCommand(patch));
    HereDocDelivers(patch);
    if k > 0 {
      assert Candidate(PATCH_BASE, 0) in Lines(patch);
    }
    forall j | 0 < j < k ensures "PATCH" + "_" + Decimal(j) in Lines(patch) {
      assert Candidate(PATCH_BASE, j) in Lines(patch);
    }
  }

  // ---- process ----------------------------------------------------------------------------

  lemma ProcessKeysDiffer()
    ensures "action" != "pid" && "action" != "sessionId" && "action" != "signal" && "pid" != "sessionId"
    ensures "pid" != "signal" && "sessionId" != "signal" && "read" != "signal"
  {
    assert "action"[0] == 'a' && "pid"[0] == 'p' && "sessionId"[1] == 'e' && "signal"[1] == 'i' && "read"[0] == 'r';
  }

  lemma ProcessIsATool()
    ensures "process" in OPENCLAW_TOOLS && "process" != "edit"
    ensures "process" != "ls" && "process" != "grep" && "process" != "find" && "process" != "apply_patch"
  {
    assert OPENCLAW_TOOLS[15] == "process";
    assert "process"[0] == 'p';
  }

  /** A process call stays one. Reading becomes log and signalling becomes kill, the signal goes,
      the process id is the session id if there was none, and nothing else changes. */
  lemma ProcessMeans(env: Env, args: Args, key: string)
    requires env.profile.OpenClawFull?
    ensures var r := TransformArgs(env, "process", args);
      && r.Rewritten? && r.name == "process"
      && Get(r.args, key) ==
         if key == "action" && TextAt(args, key) == "read" then Some("log")
         else if key == "action" && TextAt(args, key) == "signal" then Some("kill")
         else if key == "signal" then None
         else if key == "pid" && Get(args, "sessionId").None? then None
         else if key == "sessionId" && Get(args, key).None? then Get(args, "pid")
         else Get(args, key)
  {
    ProcessIsATool();
    ProcessKeysDiffer();
    assert TransformArgs(env, "process", args) == Rewritten("process", Process(args));
    ActionMeans(args, key);
    ActionMeans(args, "pid");
    ActionMeans(args, "sessionId");
    PidMeans(RenameAction(args), key);
    GetRemove(RenamePid(RenameAction(args)), "signal", key);
  }

  lemma ActionMeans(args: Args, key: string)
    ensures Get(RenameAction(args), key) ==
      if key == "action" && TextAt(args, key) == "read" then Some("log")
      else if key == "action" && TextAt(args, key) == "signal" then Some("kill")
      else Get(args, key)
  {
    ProcessKeysDiffer();
    GetPut(args, "action", "log", key);
    GetPut(args, "action", "kill", key);
  }

  lemma PidMeans(args: Args, key: string)
    ensures Get(RenamePid(args), key) ==
      if key == "pid" && Get(args, "sessionId").None? then None
      else if key == "sessionId" && Get(args, key).None? then Get(args, "pid")
      else Get(args, key)
  {
    ProcessKeysDiffer();
    GetRemove(args, "pid", key);
    if Has(args, "pid") {
      GetPut(Remove(args, "pid"), "sessionId", Get(args, "pid").value, key);
    }
  }

  // ---- the calls that stay, and those that cannot be migrated -----------------------------

  /** A call the OpenClaw profile has no place for. */
  predicate CannotMigrate(name: string, args: Args) {
    if name == "grep" || name == "find" then AllSpace(TextAt(args, "pattern"))
    else if name == "apply_patch" then AllSpace(WantedPatch(args))
    else if name == "edit" then Get(args, "edits").None? && (Get(args, "old_string").None? || Get(args, "new_string").None?)
    else name != "ls" && name !in OPENCLAW_TOOLS
  }

  predicate HasOwnError(name: string) {
    name == "grep" || name == "find" || name == "apply_patch" || name == "edit"
  }

  /** Exactly these calls are refused. */
  lemma RefusedIff(env: Env, name: string, args: Args)
    requires env.profile.OpenClawFull?
    ensures TransformArgs(env, name, args).Rejected? <==> CannotMigrate(name, args)
  {
    StripOfBlank(TextAt(args, "pattern"));
    StripOfBlank(WantedPatch(args));
    EditIsATool();
  }

  /** Each of them under its name. */
  lemma RefusedUnderItsName(env: Env, name: string, args: Args)
    requires env.profile.OpenClawFull? && TransformArgs(env, name, args).Rejected?
    ensures TransformArgs(env, name, args).error ==
      if HasOwnError(name) then name + "_unmappable" else "non_openclaw_tool:" + name
  {
    ErrorNames(name);
  }

  lemma ErrorNames(name: string)
    ensures name == "grep" ==> name + "_unmappable" == "grep_unmappable"
    ensures name == "find" ==> name + "_unmappable" == "find_unmappable"
    ensures name == "apply_patch" ==> name + "_unmappable" == "apply_patch_unmappable"
    ensures name == "edit" ==> name + "_unmappable" == "edit_unmappable"
  {
  }

  predicate IsRewritten(name: string) {
    name == "ls" || name == "grep" || name == "find" || name == "apply_patch" || name == "edit" || name == "process"
  }

  /** Calls of the other tools stay as they are, and so do edit calls that have a list of edits;
      the older profile changes no call and refuses those of other tools. */
  lemma OtherCallsStay(env: Env, name: string, args: Args)
    ensures env.profile.OpenClawFull? && name in OPENCLAW_TOOLS && !IsRewritten(name)
      ==> TransformArgs(env, name, args) == Rewritten(name, args)
    ensures env.profile.OpenClawFull? && name == "edit" && Get(args, "edits").Some?
      ==> TransformArgs(env, name, args) == Rewritten(name, args)
    ensures env.profile.Legacy11? && name in LEGACY_TOOLS ==> TransformArgs(env, name, args) == Rewritten(name, args)
    ensures env.profile.Legacy11? && name !in LEGACY_TOOLS
      ==> TransformArgs(env, name, args) == Rejected("non_profile_tool:" + name)
  {
    EditIsATool();
  }
}
