/** export_llamafactory.py: turning a recorded trajectory into a strictly alternating
    conversation without losing text. */
module Conversations {
  import opened Plans
  import opened Text

  datatype Role = System | User | Assistant | Tool | Unknown(name: string)

  /** `toolCalls` is the text of the message's structured tool calls, if any. */
  datatype Message = Message(role: Role, content: string, toolCalls: string)

  datatype Turn = Turn(role: Role, content: string)

  const TOOL_SEPARATOR := "\n</tool_response>\n<tool_response>\n"
  const SEPARATOR := "\n\n"

  predicate Odd(r: Role) { r.User? || r.Tool? }

  predicate SameSide(a: Role, b: Role) {
    (Odd(a) && Odd(b)) || (a.Assistant? && b.Assistant?)
  }

  // ---- the two merge passes ---------------------------------------------------------------

  function Flush(merged: seq<Turn>, pending: seq<string>): seq<Turn> {
    if pending == [] then merged else merged + [Turn(Tool, JoinWith(TOOL_SEPARATOR, pending))]
  }

  /** Turns merged so far and tool outputs waiting to be merged. */
  function ToolPass(ts: seq<Turn>): (seq<Turn>, seq<string>) {
    if ts == [] then ([], [])
    else
      var (merged, pending) := ToolPass(ts[..|ts| - 1]);
      var t := ts[|ts| - 1];
      if t.role.Tool? then (merged, if t.content == "" then pending else pending + [t.content])
      else (Flush(merged, pending) + [t], [])
  }

  function MergeTools(ts: seq<Turn>): seq<Turn> {
    Flush(ToolPass(ts).0, ToolPass(ts).1)
  }

  function Extend(ts: seq<Turn>, text: string): seq<Turn>
    requires ts != []
  {
    var last := ts[|ts| - 1];
    ts[|ts| - 1 := Turn(last.role, last.content + text)]
  }

  function Push(ts: seq<Turn>, t: Turn): seq<Turn> {
    if ts != [] && SameSide(t.role, ts[|ts| - 1].role) then Extend(ts, SEPARATOR + t.content) else ts + [t]
  }

  function MergeSides(ts: seq<Turn>): seq<Turn> {
    if ts == [] then [] else Push(MergeSides(ts[..|ts| - 1]), ts[|ts| - 1])
  }

  /** The turns up to the last assistant one. */
  function Trim(ts: seq<Turn>): seq<Turn> {
    if ts != [] && !ts[|ts| - 1].role.Assistant? then Trim(ts[..|ts| - 1]) else ts
  }

  // ---- the whole conversion ---------------------------------------------------------------

  function AssistantText(m: Message): string {
    if (Contains(m.content, "<tool_call>") && Contains(m.content, "</tool_call>")) || m.toolCalls == "" then m.content
    else if m.content == "" then m.toolCalls
    else m.content + SEPARATOR + m.toolCalls
  }

  function TextOf(m: Message): string {
    if m.role.Assistant? then AssistantText(m) else m.content
  }

  /** The non-system messages that say something. */
  function TurnsOf(ms: seq<Message>): seq<Turn> {
    if ms == [] then []
    else
      var m := ms[|ms| - 1];
      TurnsOf(ms[..|ms| - 1]) + if m.role.System? || TextOf(m) == "" then [] else [Turn(m.role, TextOf(m))]
  }

  function SystemParts(ms: seq<Message>): seq<string> {
    if ms == [] then []
    else
      var m := ms[|ms| - 1];
      SystemParts(ms[..|ms| - 1]) + if m.role.System? && m.content != "" then [m.content] else []
  }

  function RawText(ms: seq<Message>): string {
    JoinWith("\n", seq(|ms|, i requires 0 <= i < |ms| => ms[i].content))
  }

  predicate Leaks(markers: seq<string>, ms: seq<Message>) {
    exists i :: 0 <= i < |markers| && Contains(RawText(ms), markers[i])
  }

  predicate KnownRoles(ms: seq<Message>) {
    forall i :: 0 <= i < |ms| ==> !ms[i].role.Unknown?
  }

  datatype Reason =
    | NoMessages | HiddenInstructionLeak | UnknownRole(name: string)
    | EmptyConversations | StartsWithAssistant | LastNotAssistant | BadRoleOrder(index: nat, role: Role)

  function Normalised(ms: seq<Message>): seq<Turn> {
    Trim(MergeSides(MergeTools(TurnsOf(ms))))
  }

  function Exported(ms: seq<Message>): seq<Turn> {
    var system := SystemParts(ms);
    (if system == [] then [] else [Turn(System, JoinWith(SEPARATOR, system))]) + Normalised(ms)
  }

  // ---- the conversation, described directly -----------------------------------------------

  /** What stands between two neighbours of one side: tool outputs are joined by their own tag. */
  function Glue(a: Turn, b: Turn): string {
    if a.role.Tool? && b.role.Tool? then TOOL_SEPARATOR else SEPARATOR
  }

  /** The texts of a run of turns of one side. */
  function Glued(run: seq<Turn>): string {
    if run == [] then ""
    else if |run| == 1 then run[0].content
    else Glued(run[..|run| - 1]) + Glue(run[|run| - 2], run[|run| - 1]) + run[|run| - 1].content
  }

  /** The turns cut into maximal runs of one side. */
  function Runs(ts: seq<Turn>): (rs: seq<seq<Turn>>)
    ensures |rs| > 0 <==> ts != []
    ensures forall i :: 0 <= i < |rs| ==> rs[i] != []
  {
    if ts == [] then []
    else
      var before, t := Runs(ts[..|ts| - 1]), ts[|ts| - 1];
      if |ts| > 1 && SameSide(ts[|ts| - 2].role, t.role)
      then before[|before| - 1 := before[|before| - 1] + [t]]
      else before + [[t]]
  }

  function Spoken(rs: seq<seq<Turn>>): seq<Turn>
    requires forall i :: 0 <= i < |rs| ==> rs[i] != []
  {
    seq(|rs|, i requires 0 <= i < |rs| => Turn(rs[i][0].role, Glued(rs[i])))
  }

  predicate Speaks(t: Turn) {
    (Odd(t.role) || t.role.Assistant?) && t.content != ""
  }

  predicate AllSpeak(ts: seq<Turn>) {
    forall i :: 0 <= i < |ts| ==> Speaks(ts[i])
  }

  predicate Alternates(ts: seq<Turn>) {
    forall i :: 0 < i < |ts| ==> !SameSide(ts[i - 1].role, ts[i].role)
  }

  predicate Continues(ts: seq<Turn>, t: Turn) {
    ts != [] && SameSide(ts[|ts| - 1].role, t.role)
  }

  lemma RunsSnoc(ts: seq<Turn>, t: Turn)
    ensures var before := Runs(ts);
      Runs(ts + [t]) ==
        if Continues(ts, t) then before[|before| - 1 := before[|before| - 1] + [t]] else before + [[t]]
  {
    assert (ts + [t])[..|ts|] == ts;
  }

  /** The runs are the turns, in order and none left out. */
  lemma {:induction false} RunsAreTheTurns(ts: seq<Turn>)
    ensures Flatten(Runs(ts)) == ts
  {
    if ts != [] {
      var init, t := ts[..|ts| - 1], ts[|ts| - 1];
      assert ts == init + [t];
      RunsAreTheTurns(init);
      RunsSnoc(init, t);
      if Continues(init, t) {
        LastRunFlattens(Runs(init), t);
      } else {
        FlattenSnoc(Runs(init), [t]);
      }
    }
  }

  /** A run speaks for the side of all its turns. */
  lemma {:induction false} RunsEndOnTheSide(ts: seq<Turn>)
    requires AllSpeak(ts) && ts != []
    ensures SameSide(Spoken(Runs(ts))[|Runs(ts)| - 1].role, ts[|ts| - 1].role)
  {
    var init, t := ts[..|ts| - 1], ts[|ts| - 1];
    assert ts == init + [t] && Speaks(t);
    RunsSnoc(init, t);
    if Continues(init, t) {
      RunsEndOnTheSide(init);
      LastRunGrows(Runs(init), t);
    } else {
      SpokenSnoc(Runs(init), t);
    }
  }

  lemma AlternatesGrown(ts: seq<Turn>, us: seq<Turn>)
    requires Alternates(ts) && |us| == |ts| && forall i :: 0 <= i < |ts| ==> us[i].role == ts[i].role
    ensures Alternates(us)
  {
  }

  /** Neighbouring runs are of different sides. */
  lemma {:induction false} RunsChangeSides(ts: seq<Turn>)
    requires AllSpeak(ts)
    ensures Alternates(Spoken(Runs(ts)))
  {
    if ts != [] {
      var init, t := ts[..|ts| - 1], ts[|ts| - 1];
      assert ts == init + [t];
      RunsChangeSides(init);
      if Continues(init, t) {
        SameSideAlternates(init, t);
      } else {
        OtherSideAlternates(init, t);
      }
    }
  }

  lemma SameSideAlternates(init: seq<Turn>, t: Turn)
    requires Continues(init, t) && Alternates(Spoken(Runs(init)))
    ensures Alternates(Spoken(Runs(init + [t])))
  {
    RunsSnoc(init, t);
    LastRunGrows(Runs(init), t);
    AlternatesGrown(Spoken(Runs(init)), Spoken(Runs(init + [t])));
  }

  lemma OtherSideAlternates(init: seq<Turn>, t: Turn)
    requires AllSpeak(init) && !Continues(init, t) && Alternates(Spoken(Runs(init)))
    ensures Alternates(Spoken(Runs(init + [t])))
  {
    RunsSnoc(init, t);
    SpokenSnoc(Runs(init), t);
    if init != [] {
      RunsEndOnTheSide(init);
    }
  }

  lemma SpokenSnoc(rs: seq<seq<Turn>>, t: Turn)
    requires forall i :: 0 <= i < |rs| ==> rs[i] != []
    ensures Spoken(rs + [[t]]) == Spoken(rs) + [t]
  {
    assert Glued([t]) == t.content;
  }

  lemma LastRunFlattens(rs: seq<seq<Turn>>, t: Turn)
    requires rs != []
    ensures Flatten(rs[|rs| - 1 := rs[|rs| - 1] + [t]]) == Flatten(rs) + [t]
  {
    var init, last := rs[..|rs| - 1], rs[|rs| - 1];
    assert rs == init + [last] && rs[|rs| - 1 := last + [t]] == init + [last + [t]];
    FlattenSnoc(init, last);
    FlattenSnoc(init, last + [t]);
    AssocSeq(Flatten(init), last, [t]);
  }

  lemma LastRunGrows(rs: seq<seq<Turn>>, t: Turn)
    requires rs != [] && forall i :: 0 <= i < |rs| ==> rs[i] != []
    ensures var grown := rs[|rs| - 1 := rs[|rs| - 1] + [t]];
      && (forall i :: 0 <= i < |grown| ==> grown[i] != [])
      && |Spoken(grown)| == |rs|
      && (forall i :: 0 <= i < |rs| ==> Spoken(grown)[i].role == Spoken(rs)[i].role)
      && Spoken(grown) == Extend(Spoken(rs), Glue(rs[|rs| - 1][|rs[|rs| - 1]| - 1], t) + t.content)
  {
    GluedSnoc(rs[|rs| - 1], t);
  }

  lemma GluedSnoc(run: seq<Turn>, t: Turn)
    requires run != []
    ensures Glued(run + [t]) == Glued(run) + (Glue(run[|run| - 1], t) + t.content)
  {
    assert (run + [t])[..|run|] == run;
    AssocSeq(Glued(run), Glue(run[|run| - 1], t), t.content);
  }

  // ---- the merges compute it --------------------------------------------------------------

  lemma {:induction false} LastOfRuns(ts: seq<Turn>)
    requires ts != []
    ensures var rs := Runs(ts); rs[|rs| - 1][|rs[|rs| - 1]| - 1] == ts[|ts| - 1]
  {
    var init, t := ts[..|ts| - 1], ts[|ts| - 1];
    assert ts == init + [t];
    RunsSnoc(init, t);
  }

  lemma MergeSidesSnoc(ts: seq<Turn>, t: Turn)
    ensures MergeSides(ts + [t]) == Push(MergeSides(ts), t)
  {
    assert (ts + [t])[..|ts|] == ts;
  }

  /** Text added to the last turn before merging sides ends up at the end. */
  lemma TextComesLast(ts: seq<Turn>, role: Role, text: string, more: string)
    ensures MergeSides(ts + [Turn(role, text)]) != []
    ensures MergeSides(ts + [Turn(role, text + more)]) == Extend(MergeSides(ts + [Turn(role, text)]), more)
  {
    MergeSidesSnoc(ts, Turn(role, text));
    MergeSidesSnoc(ts, Turn(role, text + more));
    AssocSeq(SEPARATOR, text, more);
    var before := MergeSides(ts);
    if before != [] {
      AssocSeq(before[|before| - 1].content, SEPARATOR + text, more);
    }
  }

  lemma ToolPassSnoc(ts: seq<Turn>, t: Turn)
    ensures var (merged, pending) := ToolPass(ts);
      ToolPass(ts + [t]) ==
        if t.role.Tool? then (merged, if t.content == "" then pending else pending + [t.content])
        else (Flush(merged, pending) + [t], [])
  {
    assert (ts + [t])[..|ts|] == ts;
  }

  lemma {:induction false} PendingAfterTool(ts: seq<Turn>)
    requires AllSpeak(ts)
    ensures ToolPass(ts).1 != [] <==> ts != [] && ts[|ts| - 1].role.Tool?
  {
    if ts != [] {
      assert Speaks(ts[|ts| - 1]);
    }
  }

  lemma JoinSnocWith(sep: string, parts: seq<string>, last: string)
    ensures JoinWith(sep, parts + [last]) == if parts == [] then last else JoinWith(sep, parts) + (sep + last)
  {
    assert (parts + [last])[..|parts|] == parts;
    if parts != [] {
      AssocSeq(JoinWith(sep, parts), sep, last);
    }
  }

  /** A turn that does not follow a tool output as a tool output passes the first merge as it is. */
  lemma MergeToolsSnoc(ts: seq<Turn>, t: Turn)
    requires AllSpeak(ts) && Speaks(t)
    ensures !(t.role.Tool? && ts != [] && ts[|ts| - 1].role.Tool?) ==> MergeTools(ts + [t]) == MergeTools(ts) + [t]
  {
    PendingAfterTool(ts);
    ToolPassSnoc(ts, t);
    JoinSnocWith(TOOL_SEPARATOR, [], t.content);
    assert [] + [t.content] == [t.content];
  }

  lemma MergeToolsAgain(ts: seq<Turn>, t: Turn)
    requires AllSpeak(ts) && Speaks(t) && t.role.Tool? && ts != [] && ts[|ts| - 1].role.Tool?
    ensures MergeSides(MergeTools(ts)) != []
    ensures MergeSides(MergeTools(ts + [t])) == Extend(MergeSides(MergeTools(ts)), TOOL_SEPARATOR + t.content)
  {
    PendingAfterTool(ts);
    ToolPassSnoc(ts, t);
    var (merged, pending) := ToolPass(ts);
    JoinSnocWith(TOOL_SEPARATOR, pending, t.content);
    TextComesLast(merged, Tool, JoinWith(TOOL_SEPARATOR, pending), TOOL_SEPARATOR + t.content);
  }

  lemma AllSpeakInit(ts: seq<Turn>, t: Turn)
    ensures AllSpeak(ts + [t]) <==> AllSpeak(ts) && Speaks(t)
  {
    assert (ts + [t])[|ts|] == t;
    assert forall i :: 0 <= i < |ts| ==> (ts + [t])[i] == ts[i];
  }

  /** The two merge passes give one turn per run of one side, with all of its texts. */
  lemma {:induction false} MergesGiveTheRuns(ts: seq<Turn>)
    requires AllSpeak(ts)
    ensures MergeSides(MergeTools(ts)) == Spoken(Runs(ts))
  {
    if ts != [] {
      var init, t := ts[..|ts| - 1], ts[|ts| - 1];
      assert ts == init + [t];
      AllSpeakInit(init, t);
      MergesGiveTheRuns(init);
      MergeStep(init, t);
    }
  }

  lemma MergeStep(init: seq<Turn>, t: Turn)
    requires AllSpeak(init) && Speaks(t) && MergeSides(MergeTools(init)) == Spoken(Runs(init))
    ensures MergeSides(MergeTools(init + [t])) == Spoken(Runs(init + [t]))
  {
    if Continues(init, t) {
      MergeStepSameSide(init, t);
    } else {
      MergeStepOtherSide(init, t);
    }
  }

  lemma RunExtends(init: seq<Turn>, t: Turn)
    requires Continues(init, t)
    ensures Spoken(Runs(init)) != []
    ensures Spoken(Runs(init + [t])) == Extend(Spoken(Runs(init)), Glue(init[|init| - 1], t) + t.content)
  {
    RunsSnoc(init, t);
    LastRunGrows(Runs(init), t);
    LastOfRuns(init);
  }

  lemma MergeStepSameTurn(init: seq<Turn>, t: Turn)
    requires AllSpeak(init) && Speaks(t) && Continues(init, t)
    requires !(t.role.Tool? && init[|init| - 1].role.Tool?)
    requires MergeSides(MergeTools(init)) == Spoken(Runs(init))
    ensures MergeSides(MergeTools(init + [t])) == Extend(Spoken(Runs(init)), SEPARATOR + t.content)
  {
    MergeToolsSnoc(init, t);
    MergeSidesSnoc(MergeTools(init), t);
    PushOntoRun(init, t);
  }

  lemma PushOntoRun(init: seq<Turn>, t: Turn)
    requires AllSpeak(init) && Continues(init, t)
    ensures Push(Spoken(Runs(init)), t) == Extend(Spoken(Runs(init)), SEPARATOR + t.content)
  {
    RunsEndOnTheSide(init);
    var talk := Spoken(Runs(init));
    assert SameSide(t.role, talk[|talk| - 1].role);
  }

  lemma MergeStepSameSide(init: seq<Turn>, t: Turn)
    requires AllSpeak(init) && Speaks(t) && Continues(init, t)
    requires MergeSides(MergeTools(init)) == Spoken(Runs(init))
    ensures MergeSides(MergeTools(init + [t])) == Spoken(Runs(init + [t]))
  {
    RunExtends(init, t);
    if t.role.Tool? && init[|init| - 1].role.Tool? {
      MergeToolsAgain(init, t);
    } else {
      MergeStepSameTurn(init, t);
    }
  }

  lemma MergeStepOtherSide(init: seq<Turn>, t: Turn)
    requires AllSpeak(init) && Speaks(t) && !Continues(init, t)
    requires MergeSides(MergeTools(init)) == Spoken(Runs(init))
    ensures MergeSides(MergeTools(init + [t])) == Spoken(Runs(init + [t]))
  {
    NewRunIsPushed(init, t);
    MergeToolsSnoc(init, t);
    MergeSidesSnoc(MergeTools(init), t);
  }

  lemma NewRunIsPushed(init: seq<Turn>, t: Turn)
    requires AllSpeak(init) && !Continues(init, t)
    ensures Spoken(Runs(init + [t])) == Push(Spoken(Runs(init)), t)
  {
    RunsSnoc(init, t);
    SpokenSnoc(Runs(init), t);
    if init != [] {
      RunsEndOnTheSide(init);
    }
  }

  // ---- trimming ---------------------------------------------------------------------------

  /** Dropping merged turns after the last assistant is dropping the turns after it. */
  lemma {:induction false} TrimKeepsToAssistant(ts: seq<Turn>)
    requires AllSpeak(ts)
    ensures AllSpeak(Trim(ts))
    ensures Trim(Spoken(Runs(ts))) == Spoken(Runs(Trim(ts)))
  {
    if ts != [] {
      var init, t := ts[..|ts| - 1], ts[|ts| - 1];
      assert ts == init + [t];
      AllSpeakInit(init, t);
      if t.role.Assistant? {
        RunsEndOnTheSide(ts);
      } else {
        TrimKeepsToAssistant(init);
        TrimStep(init, t);
      }
    }
  }

  lemma TrimExtended(ts: seq<Turn>, text: string)
    requires ts != [] && !ts[|ts| - 1].role.Assistant?
    ensures Trim(Extend(ts, text)) == Trim(ts)
  {
    assert Extend(ts, text)[..|ts| - 1] == ts[..|ts| - 1];
  }

  lemma TrimAppended(ts: seq<Turn>, t: Turn)
    requires !t.role.Assistant?
    ensures Trim(ts + [t]) == Trim(ts)
  {
    assert (ts + [t])[..|ts|] == ts;
  }

  lemma TrimStep(init: seq<Turn>, t: Turn)
    requires AllSpeak(init) && Speaks(t) && !t.role.Assistant?
    ensures Trim(Spoken(Runs(init + [t]))) == Trim(Spoken(Runs(init)))
  {
    RunsSnoc(init, t);
    if Continues(init, t) {
      RunsEndOnTheSide(init);
      LastRunGrows(Runs(init), t);
      LastOfRuns(init);
      TrimExtended(Spoken(Runs(init)), Glue(init[|init| - 1], t) + t.content);
    } else {
      SpokenSnoc(Runs(init), t);
      TrimAppended(Spoken(Runs(init)), t);
    }
  }

  lemma {:induction false} TurnsSpeak(ms: seq<Message>)
    requires KnownRoles(ms)
    ensures AllSpeak(TurnsOf(ms))
  {
    if ms != [] {
      var init, m := ms[..|ms| - 1], ms[|ms| - 1];
      TurnsSpeak(init);
      assert !m.role.Unknown?;
    }
  }

  lemma {:induction false} TrimEnds(ts: seq<Turn>)
    ensures Trim(ts) <= ts
    ensures var kept := Trim(ts);
      && (kept != [] ==> kept[|kept| - 1].role.Assistant?)
      && (forall i :: |kept| <= i < |ts| ==> !ts[i].role.Assistant?)
  {
    if ts != [] && !ts[|ts| - 1].role.Assistant? {
      TrimEnds(ts[..|ts| - 1]);
    }
  }

  /** The conversation: every non-empty text up to the last assistant turn, in order, one
      turn per run of one side; strictly alternating and ending with the assistant. */
  lemma ConversationKeepsTheTexts(ms: seq<Message>)
    requires KnownRoles(ms)
    ensures var kept := Trim(TurnsOf(ms));
      && Normalised(ms) == Spoken(Runs(kept)) && Flatten(Runs(kept)) == kept
      && Alternates(Normalised(ms)) && AllSides(Normalised(ms))
      && (Normalised(ms) != [] <==> kept != [])
      && (kept != [] ==> Normalised(ms)[|Normalised(ms)| - 1].role.Assistant? && Normalised(ms)[0].role == kept[0].role)
  {
    var ts := TurnsOf(ms);
    var kept := Trim(ts);
    TurnsSpeak(ms);
    MergesGiveTheRuns(ts);
    TrimKeepsToAssistant(ts);
    RunsAreTheTurns(kept);
    RunsChangeSides(kept);
    TrimEnds(ts);
    TalkEnds(kept);
  }

  lemma TalkEnds(kept: seq<Turn>)
    requires AllSpeak(kept) && (kept != [] ==> kept[|kept| - 1].role.Assistant?)
    ensures var talk := Spoken(Runs(kept));
      && AllSides(talk) && (talk != [] <==> kept != [])
      && (kept != [] ==> talk[|talk| - 1].role.Assistant? && talk[0].role == kept[0].role)
  {
    FirstOfRuns(kept);
    if kept != [] {
      RunsEndOnTheSide(kept);
    }
  }

  predicate AllSides(ts: seq<Turn>) {
    forall i :: 0 <= i < |ts| ==> Odd(ts[i].role) || ts[i].role.Assistant?
  }

  lemma {:induction false} FirstOfRuns(ts: seq<Turn>)
    requires AllSpeak(ts)
    ensures AllSides(Spoken(Runs(ts)))
    ensures ts != [] ==> Runs(ts)[0][0] == ts[0]
  {
    if ts != [] {
      var init, t := ts[..|ts| - 1], ts[|ts| - 1];
      assert ts == init + [t];
      AllSpeakInit(init, t);
      FirstOfRuns(init);
      RunsSnoc(init, t);
      if Continues(init, t) {
        LastRunGrows(Runs(init), t);
      } else {
        SpokenSnoc(Runs(init), t);
      }
    }
  }

  // ---- doing it twice ---------------------------------------------------------------------

  lemma {:induction false} MergeSidesAlternates(ts: seq<Turn>)
    ensures Alternates(MergeSides(ts))
  {
    if ts != [] {
      MergeSidesAlternates(ts[..|ts| - 1]);
    }
  }

  lemma {:induction false} AlternatingStays(ts: seq<Turn>)
    requires Alternates(ts)
    ensures MergeSides(ts) == ts
  {
    if ts != [] {
      AlternatingStays(ts[..|ts| - 1]);
      assert |ts| > 1 ==> !SameSide(ts[|ts| - 2].role, ts[|ts| - 1].role);
      assert ts == ts[..|ts| - 1] + [ts[|ts| - 1]];
    }
  }

  /** No tool output is empty or follows another. */
  predicate ToolsApart(ts: seq<Turn>) {
    && (forall i :: 0 < i < |ts| ==> !(ts[i - 1].role.Tool? && ts[i].role.Tool?))
    && (forall i :: 0 <= i < |ts| && ts[i].role.Tool? ==> ts[i].content != "")
  }

  lemma FlushApart(merged: seq<Turn>, pending: seq<string>)
    requires ToolsApart(merged) && (merged != [] ==> !merged[|merged| - 1].role.Tool?)
    requires pending != [] ==> JoinWith(TOOL_SEPARATOR, pending) != ""
    ensures ToolsApart(Flush(merged, pending))
    ensures forall t: Turn :: !t.role.Tool? ==> ToolsApart(Flush(merged, pending) + [t])
  {
  }

  lemma {:induction false} ToolPassApart(ts: seq<Turn>)
    ensures var (merged, pending) := ToolPass(ts);
      && ToolsApart(merged) && (merged != [] ==> !merged[|merged| - 1].role.Tool?)
      && (pending != [] ==> JoinWith(TOOL_SEPARATOR, pending) != "")
  {
    if ts != [] {
      var init, t := ts[..|ts| - 1], ts[|ts| - 1];
      var (merged, pending) := ToolPass(init);
      ToolPassApart(init);
      FlushApart(merged, pending);
      if t.content != "" {
        JoinSnocWith(TOOL_SEPARATOR, pending, t.content);
      }
    }
  }

  function Split(ts: seq<Turn>): (seq<Turn>, seq<string>) {
    if ts != [] && ts[|ts| - 1].role.Tool? then (ts[..|ts| - 1], [ts[|ts| - 1].content]) else (ts, [])
  }

  lemma FlushSplit(ts: seq<Turn>)
    ensures Flush(Split(ts).0, Split(ts).1) == ts
  {
    if ts != [] && ts[|ts| - 1].role.Tool? {
      var t := ts[|ts| - 1];
      assert JoinWith(TOOL_SEPARATOR, [t.content]) == t.content;
      assert Turn(Tool, t.content) == t;
    }
  }

  lemma {:induction false} ApartStays(ts: seq<Turn>)
    requires ToolsApart(ts)
    ensures ToolPass(ts) == Split(ts) && MergeTools(ts) == ts
  {
    if ts != [] {
      var init, t := ts[..|ts| - 1], ts[|ts| - 1];
      assert ts == init + [t];
      ApartStays(init);
      FlushSplit(init);
      assert |ts| > 1 ==> !(ts[|ts| - 2].role.Tool? && t.role.Tool?);
      assert [] + [t.content] == [t.content];
    }
    FlushSplit(ts);
  }

  /** Each merge pass leaves its own output alone, whatever it was given. */
  lemma MergesAreIdempotent(ts: seq<Turn>)
    ensures MergeTools(MergeTools(ts)) == MergeTools(ts)
    ensures MergeSides(MergeSides(ts)) == MergeSides(ts)
  {
    ToolPassApart(ts);
    ApartStays(MergeTools(ts));
    MergeSidesAlternates(ts);
    AlternatingStays(MergeSides(ts));
  }

  // ---- which records are accepted ---------------------------------------------------------

  predicate RightSide(index: nat, role: Role) {
    if index % 2 == 0 then Odd(role) else role.Assistant?
  }

  function FirstBadRole(ts: seq<Turn>, index: nat): Option<Reason>
    requires index <= |ts|
    decreases |ts| - index
  {
    if index == |ts| then None
    else if RightSide(index, ts[index].role) then FirstBadRole(ts, index + 1)
    else Some(BadRoleOrder(index, ts[index].role))
  }

  /** The checks made on the merged conversation. */
  function OrderProblem(ts: seq<Turn>): Option<Reason> {
    if ts == [] then Some(EmptyConversations)
    else if !Odd(ts[0].role) then Some(StartsWithAssistant)
    else if !ts[|ts| - 1].role.Assistant? then Some(LastNotAssistant)
    else FirstBadRole(ts, 0)
  }

  lemma {:induction false} SidesByPosition(ts: seq<Turn>, i: nat)
    requires Alternates(ts) && AllSides(ts) && i < |ts| && Odd(ts[0].role)
    ensures RightSide(i, ts[i].role)
  {
    if i > 0 {
      SidesByPosition(ts, i - 1);
      assert !SameSide(ts[i - 1].role, ts[i].role);
    }
  }

  lemma {:induction false} NoBadRole(ts: seq<Turn>, index: nat)
    requires index <= |ts| && forall i :: index <= i < |ts| ==> RightSide(i, ts[i].role)
    ensures FirstBadRole(ts, index) == None
    decreases |ts| - index
  {
    if index < |ts| {
      NoBadRole(ts, index + 1);
    }
  }

  function FirstUnknown(ms: seq<Message>): string
    requires !KnownRoles(ms)
  {
    if ms[0].role.Unknown? then ms[0].role.name
    else
      assert !KnownRoles(ms[1..]) by { assert forall i :: 1 <= i < |ms| ==> ms[i] == ms[1..][i - 1]; }
      FirstUnknown(ms[1..])
  }

  predicate AssistantSpeaks(ts: seq<Turn>) {
    exists i :: 0 <= i < |ts| && ts[i].role.Assistant?
  }

  /** Why a record is refused, read off its messages; None when it is accepted. */
  function Refusal(markers: seq<string>, ms: seq<Message>): Option<Reason> {
    if ms == [] then Some(NoMessages)
    else if Leaks(markers, ms) then Some(HiddenInstructionLeak)
    else if !KnownRoles(ms) then Some(UnknownRole(FirstUnknown(ms)))
    else if !AssistantSpeaks(TurnsOf(ms)) then Some(EmptyConversations)
    else if TurnsOf(ms)[0].role.Assistant? then Some(StartsWithAssistant)
    else None
  }

  /** After merging and trimming only two refusals are left: an assistant that never
      speaks, and one that speaks first. The other two checks never fire. */
  lemma OrderNeverFails(markers: seq<string>, ms: seq<Message>)
    requires ms != [] && !Leaks(markers, ms) && KnownRoles(ms)
    ensures OrderProblem(Normalised(ms)) == Refusal(markers, ms)
  {
    var ts, talk := TurnsOf(ms), Normalised(ms);
    ConversationKeepsTheTexts(ms);
    KeptSomething(ts);
    if talk != [] && Odd(talk[0].role) {
      OrderIsRight(talk);
    }
  }

  lemma KeptSomething(ts: seq<Turn>)
    ensures Trim(ts) != [] <==> AssistantSpeaks(ts)
    ensures Trim(ts) != [] ==> Trim(ts)[0] == ts[0]
  {
    var kept := Trim(ts);
    TrimEnds(ts);
    if kept != [] {
      assert ts[|kept| - 1].role.Assistant?;
    }
  }

  lemma OrderIsRight(talk: seq<Turn>)
    requires talk != [] && Alternates(talk) && AllSides(talk) && Odd(talk[0].role)
    ensures FirstBadRole(talk, 0) == None
  {
    forall i | 0 <= i < |talk| ensures RightSide(i, talk[i].role) {
      SidesByPosition(talk, i);
    }
    NoBadRole(talk, 0);
  }

  // ---- as loops ---------------------------------------------------------------------------

  method MergeConsecutiveToolMessages(messages: seq<Turn>) returns (merged: seq<Turn>)
    ensures merged == MergeTools(messages)
  {
    merged := [];
    var pendingTools: seq<string> := [];
    var n := 0;
    while n < |messages|
      invariant n <= |messages| && (merged, pendingTools) == ToolPass(messages[..n])
    {
      var message := messages[n];
      TakeSnoc(messages, n);
      ToolPassSnoc(messages[..n], message);
      if message.role.Tool? {
        if message.content != "" {
          pendingTools := pendingTools + [message.content];
        }
      } else {
        if pendingTools != [] {
          merged := merged + [Turn(Tool, JoinWith(TOOL_SEPARATOR, pendingTools))];
          pendingTools := [];
        }
        merged := merged + [message];
      }
      n := n + 1;
    }
    assert messages[..n] == messages;
    if pendingTools != [] {
      merged := merged + [Turn(Tool, JoinWith(TOOL_SEPARATOR, pendingTools))];
    }
  }

  method MergeConsecutiveSameSideMessages(messages: seq<Turn>) returns (normalized: seq<Turn>)
    ensures normalized == MergeSides(messages)
  {
    normalized := [];
    var n := 0;
    while n < |messages|
      invariant n <= |messages| && normalized == MergeSides(messages[..n])
    {
      var message := messages[n];
      TakeSnoc(messages, n);
      MergeSidesSnoc(messages[..n], message);
      var last := |normalized| - 1;
      if normalized != [] && Odd(message.role) && Odd(normalized[last].role) {
        normalized := normalized[last := normalized[last].(content := normalized[last].content + (SEPARATOR + message.content))];
      } else if normalized != [] && message.role.Assistant? && normalized[last].role.Assistant? {
        normalized := normalized[last := normalized[last].(content := normalized[last].content + (SEPARATOR + message.content))];
      } else {
        normalized := normalized + [message];
      }
      n := n + 1;
    }
    assert messages[..n] == messages;
  }

  /** The first loop of convert_record; fails on the first unknown role. */
  method ReadMessages(messages: seq<Message>) returns (unknown: Option<string>, system: seq<string>, turns: seq<Turn>)
    ensures unknown.Some? <==> !KnownRoles(messages)
    ensures unknown.Some? ==> unknown.value == FirstUnknown(messages)
    ensures unknown.None? ==> system == SystemParts(messages) && turns == TurnsOf(messages)
  {
    unknown, system, turns := None, [], [];
    var n := 0;
    while n < |messages|
      invariant n <= |messages| && KnownRoles(messages[..n])
      invariant system == SystemParts(messages[..n]) && turns == TurnsOf(messages[..n])
    {
      var m := messages[n];
      assert messages[..n + 1][..n] == messages[..n];
      match m.role {
        case System =>
          if m.content != "" {
            system := system + [m.content];
          }
        case User =>
          if m.content != "" {
            turns := turns + [Turn(User, m.content)];
          }
        case Assistant =>
          var content := m.content;
          if !(Contains(content, "<tool_call>") && Contains(content, "</tool_call>")) && m.toolCalls != "" {
            content := if content != "" then content + SEPARATOR + m.toolCalls else m.toolCalls;
          }
          if content != "" {
            turns := turns + [Turn(Assistant, content)];
          }
        case Tool =>
          if m.content != "" {
            turns := turns + [Turn(Tool, m.content)];
          }
        case Unknown(name) =>
          FirstUnknownAt(messages, n);
          return Some(name), system, turns;
      }
      n := n + 1;
    }
    assert messages[..n] == messages;
  }

  lemma {:induction false} FirstUnknownAt(ms: seq<Message>, n: nat)
    requires n < |ms| && KnownRoles(ms[..n]) && ms[n].role.Unknown?
    ensures !KnownRoles(ms) && FirstUnknown(ms) == ms[n].role.name
  {
    if n > 0 {
      assert ms[0] == ms[..n][0];
      assert ms[1..][..n - 1] == ms[..n][1..];
      FirstUnknownAt(ms[1..], n - 1);
    }
  }

  method CheckOrder(conversations: seq<Turn>) returns (problem: Option<Reason>)
    ensures problem == OrderProblem(conversations)
  {
    if conversations == [] {
      return Some(EmptyConversations);
    }
    if !Odd(conversations[0].role) {
      return Some(StartsWithAssistant);
    }
    if !conversations[|conversations| - 1].role.Assistant? {
      return Some(LastNotAssistant);
    }
    var index := 0;
    while index < |conversations|
      invariant index <= |conversations| && FirstBadRole(conversations, 0) == FirstBadRole(conversations, index)
    {
      var role := conversations[index].role;
      if !(if index % 2 == 0 then Odd(role) else role.Assistant?) {
        return Some(BadRoleOrder(index, role));
      }
      index := index + 1;
    }
    return None;
  }

  /** The merges and the trimming of convert_record. */
  method Normalise(turns: seq<Turn>) returns (conversations: seq<Turn>)
    ensures conversations == Trim(MergeSides(MergeTools(turns)))
  {
    var merged := MergeConsecutiveToolMessages(turns);
    conversations := MergeConsecutiveSameSideMessages(merged);
    while conversations != [] && !conversations[|conversations| - 1].role.Assistant?
      invariant Trim(conversations) == Trim(MergeSides(MergeTools(turns)))
    {
      conversations := conversations[..|conversations| - 1];
    }
  }

  /** convert_record: the exported messages, or the reason for dropping the record. */
  method ConvertRecord(markers: seq<string>, messages: seq<Message>) returns (result: Result<seq<Turn>, Reason>)
    ensures result == match Refusal(markers, messages)
                      case Some(reason) => Err(reason)
                      case None => Ok(Exported(messages))
  {
    if messages == [] {
      return Err(NoMessages);
    }
    if exists i :: 0 <= i < |markers| && Contains(RawText(messages), markers[i]) {
      return Err(HiddenInstructionLeak);
    }
    var unknown, system, turns := ReadMessages(messages);
    if unknown.Some? {
      return Err(UnknownRole(unknown.value));
    }
    var conversations := Normalise(turns);
    OrderNeverFails(markers, messages);
    var problem := CheckOrder(conversations);
    if problem.Some? {
      return Err(problem.value);
    }
    var exported: seq<Turn> := [];
    if system != [] {
      exported := exported + [Turn(System, JoinWith(SEPARATOR, system))];
      assert exported == [Turn(System, JoinWith(SEPARATOR, system))];
    }
    return Ok(exported + conversations);
  }
}
