/** What a converted record says and why one is refused, read off the messages' roles and
    texts. */
module ConversationMeanings {
  import opened Plans
  import opened Text
  import opened PlanOrders
  import opened Conversations

  // ---- what each message says -------------------------------------------------------------

  /** An assistant's tool calls are added to its text, unless that has some already. */
  predicate Says(m: Message, text: string) {
    if m.role.Assistant? && m.toolCalls != "" && !(Contains(m.content, "<tool_call>") && Contains(m.content, "</tool_call>"))
    then text == if m.content == "" then m.toolCalls else m.content + "\n\n" + m.toolCalls
    else text == m.content
  }

  lemma SaidIs(m: Message)
    ensures forall text :: Says(m, text) <==> text == TextOf(m)
  {
  }

  /** `n` is the position of a message other than the system's that says something. */
  predicate SpeaksAt(ms: seq<Message>, n: nat) {
    n < |ms| && !ms[n].role.System? && !Says(ms[n], "")
  }

  /** The turns are what the messages at these positions say, in order. */
  predicate AreSaid(ms: seq<Message>, ts: seq<Turn>, at: seq<nat>) {
    |at| == |ts| && Increasing(at)
    && forall k :: 0 <= k < |at| ==> at[k] < |ms| && ts[k].role == ms[at[k]].role && Says(ms[at[k]], ts[k].content)
  }

  ghost predicate AllSpeakers(ms: seq<Message>, at: seq<nat>) {
    forall n: nat :: n in at <==> SpeaksAt(ms, n)
  }

  lemma SaidStill(ms: seq<Message>, ts: seq<Turn>, at: seq<nat>)
    requires ms != [] && AreSaid(ms[..|ms| - 1], ts, at) && AllSpeakers(ms[..|ms| - 1], at)
    requires !SpeaksAt(ms, |ms| - 1)
    ensures AreSaid(ms, ts, at) && AllSpeakers(ms, at)
  {
    EarlierSpeakers(ms);
  }

  lemma SaidAlso(ms: seq<Message>, ts: seq<Turn>, at: seq<nat>, t: Turn)
    requires ms != [] && AreSaid(ms[..|ms| - 1], ts, at) && AllSpeakers(ms[..|ms| - 1], at)
    requires SpeaksAt(ms, |ms| - 1) && t.role == ms[|ms| - 1].role && Says(ms[|ms| - 1], t.content)
    ensures AreSaid(ms, ts + [t], at + [|ms| - 1]) && AllSpeakers(ms, at + [|ms| - 1])
  {
    EarlierSpeakers(ms);
  }

  lemma EarlierSpeakers(ms: seq<Message>)
    requires ms != []
    ensures forall n: nat :: n < |ms| - 1 ==> (SpeaksAt(ms, n) <==> SpeaksAt(ms[..|ms| - 1], n))
  {
    forall n: nat | n < |ms| - 1 ensures SpeaksAt(ms, n) <==> SpeaksAt(ms[..|ms| - 1], n) {
      assert ms[..|ms| - 1][n] == ms[n];
    }
  }

  lemma {:induction false} TurnsMean(ms: seq<Message>) returns (at: seq<nat>)
    ensures AreSaid(ms, TurnsOf(ms), at) && AllSpeakers(ms, at)
  {
    if ms == [] {
      at := [];
    } else {
      var n := |ms| - 1;
      at := TurnsMean(ms[..n]);
      SaidIs(ms[n]);
      if SpeaksAt(ms, n) {
        SaidAlso(ms, TurnsOf(ms[..n]), at, Turn(ms[n].role, TextOf(ms[n])));
        at := at + [n];
      } else {
        SaidStill(ms, TurnsOf(ms[..n]), at);
      }
    }
  }

  /** The system's texts are those of its messages that have one, in order. */
  predicate AreSystemTexts(ms: seq<Message>, parts: seq<string>, at: seq<nat>) {
    |at| == |parts| && Increasing(at)
    && forall k :: 0 <= k < |at| ==> at[k] < |ms| && parts[k] == ms[at[k]].content
  }

  predicate SystemTextAt(ms: seq<Message>, n: nat) {
    n < |ms| && ms[n].role.System? && ms[n].content != ""
  }

  ghost predicate AllSystemTexts(ms: seq<Message>, at: seq<nat>) {
    forall n: nat :: n in at <==> SystemTextAt(ms, n)
  }

  lemma {:induction false} SystemMeans(ms: seq<Message>) returns (at: seq<nat>)
    ensures AreSystemTexts(ms, SystemParts(ms), at)
    ensures AllSystemTexts(ms, at)
  {
    if ms == [] {
      at := [];
    } else {
      var n := |ms| - 1;
      at := SystemMeans(ms[..n]);
      if SystemTextAt(ms, n) {
        SystemAlso(ms, SystemParts(ms[..n]), at);
        at := at + [n];
      } else {
        SystemStill(ms, SystemParts(ms[..n]), at);
      }
    }
  }

  lemma SystemStill(ms: seq<Message>, parts: seq<string>, at: seq<nat>)
    requires ms != [] && AreSystemTexts(ms[..|ms| - 1], parts, at) && AllSystemTexts(ms[..|ms| - 1], at)
    requires !SystemTextAt(ms, |ms| - 1)
    ensures AreSystemTexts(ms, parts, at) && AllSystemTexts(ms, at)
  {
    EarlierSystemTexts(ms);
  }

  lemma SystemAlso(ms: seq<Message>, parts: seq<string>, at: seq<nat>)
    requires ms != [] && AreSystemTexts(ms[..|ms| - 1], parts, at) && AllSystemTexts(ms[..|ms| - 1], at)
    requires SystemTextAt(ms, |ms| - 1)
    ensures AreSystemTexts(ms, parts + [ms[|ms| - 1].content], at + [|ms| - 1]) && AllSystemTexts(ms, at + [|ms| - 1])
  {
    EarlierSystemTexts(ms);
  }

  lemma EarlierSystemTexts(ms: seq<Message>)
    requires ms != []
    ensures forall n: nat :: n < |ms| - 1 ==> (SystemTextAt(ms, n) <==> SystemTextAt(ms[..|ms| - 1], n))
  {
    forall n: nat | n < |ms| - 1 ensures SystemTextAt(ms, n) <==> SystemTextAt(ms[..|ms| - 1], n) {
      assert ms[..|ms| - 1][n] == ms[n];
    }
  }

  // ---- the turns of the conversation ------------------------------------------------------

  predicate OnOneSide(a: Role, b: Role) {
    ((a.User? || a.Tool?) && (b.User? || b.Tool?)) || (a.Assistant? && b.Assistant?)
  }

  /** The texts of a run, from the first on: two tool outputs are joined by the tags between two
      responses, anything else by an empty line. */
  function Woven(run: seq<Turn>): string {
    if run == [] then ""
    else if |run| == 1 then run[0].content
    else
      run[0].content
      + ((if run[0].role.Tool? && run[1].role.Tool? then "\n</tool_response>\n<tool_response>\n" else "\n\n") + Woven(run[1..]))
  }

  lemma WovenFirst(run: seq<Turn>, rest: seq<Turn>)
    requires |run| > 1 && rest == run[1..]
    ensures Woven(run) == run[0].content + (Glue(run[0], run[1]) + Woven(rest))
  {
  }

  lemma LastComesLast(a: string, b: string, c: string, d: string)
    ensures a + (b + (c + d)) == (a + (b + c)) + d
  {
  }

  lemma {:induction false} WovenSnoc(run: seq<Turn>, t: Turn)
    requires run != []
    ensures Woven(run + [t]) == Woven(run) + (Glue(run[|run| - 1], t) + t.content)
  {
    var rest := run[1..];
    assert (run + [t])[1..] == rest + [t];
    WovenFirst(run + [t], rest + [t]);
    if |run| == 1 {
      assert rest + [t] == [t];
    } else {
      WovenSnoc(rest, t);
      WovenFirst(run, rest);
      LastComesLast(run[0].content, Glue(run[0], run[1]), Woven(rest), Glue(run[|run| - 1], t) + t.content);
    }
  }

  lemma {:induction false} GluedIsWoven(run: seq<Turn>)
    ensures Glued(run) == Woven(run)
  {
    if |run| > 1 {
      var init, t := run[..|run| - 1], run[|run| - 1];
      GluedIsWoven(init);
      WovenSnoc(init, t);
      GluedSnoc(init, t);
      assert run == init + [t];
    }
  }

  /** All of one side; and no two neighbouring runs are of one side. */
  predicate OfOneSide(run: seq<Turn>) {
    run != [] && forall k :: 0 < k < |run| ==> OnOneSide(run[k - 1].role, run[k].role)
  }

  predicate SidesChange(runs: seq<seq<Turn>>) {
    (forall i :: 0 <= i < |runs| ==> OfOneSide(runs[i]))
    && forall i :: 0 < i < |runs| ==> !OnOneSide(runs[i - 1][|runs[i - 1]| - 1].role, runs[i][0].role)
  }

  lemma {:induction false} RunsAreOfOneSide(ts: seq<Turn>)
    ensures SidesChange(Runs(ts))
  {
    if ts != [] {
      var init, t := ts[..|ts| - 1], ts[|ts| - 1];
      assert ts == init + [t];
      RunsAreOfOneSide(init);
      RunsSnoc(init, t);
      if init != [] {
        LastOfRuns(init);
        if Continues(init, t) {
          RunGoesOn(Runs(init), t);
        } else {
          RunBegins(Runs(init), t);
        }
      }
    }
  }

  lemma RunGoesOn(runs: seq<seq<Turn>>, t: Turn)
    requires runs != [] && SidesChange(runs)
    requires var last := runs[|runs| - 1]; OnOneSide(last[|last| - 1].role, t.role)
    ensures SidesChange(runs[|runs| - 1 := runs[|runs| - 1] + [t]])
  {
    var grown := runs[|runs| - 1 := runs[|runs| - 1] + [t]];
    forall i | 0 <= i < |grown| ensures OfOneSide(grown[i]) {
      assert OfOneSide(runs[i]);
    }
    forall i | 0 < i < |grown| ensures !OnOneSide(grown[i - 1][|grown[i - 1]| - 1].role, grown[i][0].role) {
      assert grown[i - 1] == runs[i - 1] && grown[i][0] == runs[i][0];
    }
  }

  lemma RunBegins(runs: seq<seq<Turn>>, t: Turn)
    requires runs != [] && SidesChange(runs)
    requires var last := runs[|runs| - 1]; last != [] && !OnOneSide(last[|last| - 1].role, t.role)
    ensures SidesChange(runs + [[t]])
  {
    var more := runs + [[t]];
    forall i | 0 <= i < |more| ensures OfOneSide(more[i]) {
      if i < |runs| {
        assert OfOneSide(runs[i]);
      }
    }
  }

  /** One turn per run: the role of its first turn, and all of its texts. */
  predicate SpeaksFor(talk: seq<Turn>, runs: seq<seq<Turn>>) {
    |talk| == |runs|
    && forall i :: 0 <= i < |runs| ==> runs[i] != [] && talk[i] == Turn(runs[i][0].role, Woven(runs[i]))
  }

  lemma SpokenSpeaksFor(runs: seq<seq<Turn>>)
    requires forall i :: 0 <= i < |runs| ==> runs[i] != []
    ensures SpeaksFor(Spoken(runs), runs)
  {
    forall i | 0 <= i < |runs| ensures Spoken(runs)[i] == Turn(runs[i][0].role, Woven(runs[i])) {
      GluedIsWoven(runs[i]);
    }
  }

  /** The turns up to the last one of the assistant. */
  predicate UpToAssistant(ts: seq<Turn>, n: nat) {
    n <= |ts| && (n > 0 ==> ts[n - 1].role.Assistant?) && forall i :: n <= i < |ts| ==> !ts[i].role.Assistant?
  }

  /** An exported record: the system's texts, joined by empty lines, if there are any; then what
      the other messages say up to the last assistant message that says something, with one
      turn for each run of one side. */
  lemma ExportedMeans(ms: seq<Message>)
    returns (system: seq<string>, systemAt: seq<nat>, ts: seq<Turn>, at: seq<nat>, n: nat, runs: seq<seq<Turn>>, talk: seq<Turn>)
    requires KnownRoles(ms)
    ensures AreSystemTexts(ms, system, systemAt) && AllSystemTexts(ms, systemAt)
    ensures AreSaid(ms, ts, at) && AllSpeakers(ms, at)
    ensures UpToAssistant(ts, n) && Flatten(runs) == ts[..n] && SidesChange(runs) && SpeaksFor(talk, runs)
    ensures Exported(ms) == (if system == [] then [] else [Turn(System, JoinWith("\n\n", system))]) + talk
  {
    system, ts := SystemParts(ms), TurnsOf(ms);
    systemAt := SystemMeans(ms);
    at := TurnsMean(ms);
    n := |Trim(ts)|;
    TrimEnds(ts);
    assert Trim(ts) == ts[..n];
    ConversationKeepsTheTexts(ms);
    runs, talk := Runs(ts[..n]), Normalised(ms);
    RunsAreOfOneSide(ts[..n]);
    SpokenSpeaksFor(runs);
  }

  // ---- why a record is refused ------------------------------------------------------------

  /** Some marker occurs in the messages' contents, one line after the other. */
  ghost predicate HasMarker(markers: seq<string>, ms: seq<Message>) {
    exists contents: seq<string>, i ::
      ContentsAre(ms, contents) && 0 <= i < |markers| && Contains(JoinWith("\n", contents), markers[i])
  }

  predicate ContentsAre(ms: seq<Message>, contents: seq<string>) {
    |contents| == |ms| && forall k :: 0 <= k < |ms| ==> contents[k] == ms[k].content
  }

  lemma LeaksIff(markers: seq<string>, ms: seq<Message>)
    ensures Leaks(markers, ms) <==> HasMarker(markers, ms)
  {
    var contents := seq(|ms|, i requires 0 <= i < |ms| => ms[i].content);
    assert ContentsAre(ms, contents);
    if HasMarker(markers, ms) {
      var other: seq<string>, i :| ContentsAre(ms, other) && 0 <= i < |markers| && Contains(JoinWith("\n", other), markers[i]);
      assert other == contents;
    }
  }

  /** Message `n` is the first of no known role. */
  predicate FirstStrange(ms: seq<Message>, n: nat) {
    n < |ms| && ms[n].role.Unknown? && forall k :: 0 <= k < n ==> !ms[k].role.Unknown?
  }

  /** Message `n` is the first that says something. */
  predicate FirstToSpeak(ms: seq<Message>, n: nat) {
    SpeaksAt(ms, n) && forall k: nat :: k < n ==> !SpeaksAt(ms, k)
  }

  lemma {:induction false} FirstUnknownIs(ms: seq<Message>) returns (n: nat)
    requires !KnownRoles(ms)
    ensures FirstStrange(ms, n) && FirstUnknown(ms) == ms[n].role.name
  {
    n := 0;
    while !ms[n].role.Unknown?
      invariant n < |ms| && forall k :: 0 <= k < n ==> !ms[k].role.Unknown?
      decreases |ms| - n
    {
      n := n + 1;
      if n == |ms| {
        assert KnownRoles(ms);
      }
    }
    FirstUnknownAt(ms, n);
  }

  lemma FirstIsLeast(at: seq<nat>, k: nat)
    requires Increasing(at) && k in at
    ensures at[0] <= k
  {
  }

  lemma SpeakersSpeak(ms: seq<Message>, at: seq<nat>)
    requires AreSaid(ms, TurnsOf(ms), at) && AllSpeakers(ms, at)
    ensures AssistantSpeaks(TurnsOf(ms)) <==> exists n: nat :: SpeaksAt(ms, n) && ms[n].role.Assistant?
    ensures at != [] ==> FirstToSpeak(ms, at[0])
  {
    var ts := TurnsOf(ms);
    if AssistantSpeaks(ts) {
      var i :| 0 <= i < |ts| && ts[i].role.Assistant?;
      assert at[i] in at;
    }
    if n: nat :| SpeaksAt(ms, n) && ms[n].role.Assistant? {
      var i :| 0 <= i < |at| && at[i] == n;
      assert ts[i].role.Assistant?;
    }
    if at != [] {
      assert at[0] in at;
      forall k: nat | k < at[0] ensures !SpeaksAt(ms, k) {
        if k in at {
          FirstIsLeast(at, k);
        }
      }
    }
  }

  /** Which record is refused, and why: there are no messages; a marker occurs; a role is unknown;
      no assistant message says anything; the first message that does is the assistant's; the
      first of these that holds. Every other record is exported. */
  lemma RefusedMeans(markers: seq<string>, ms: seq<Message>)
    ensures Refusal(markers, ms) == Some(NoMessages) <==> ms == []
    ensures Refusal(markers, ms) == Some(HiddenInstructionLeak) <==> ms != [] && HasMarker(markers, ms)
    ensures ms != [] && !HasMarker(markers, ms) ==>
      forall n: nat :: FirstStrange(ms, n) ==> Refusal(markers, ms) == Some(UnknownRole(ms[n].role.name))
    ensures ms != [] && !HasMarker(markers, ms) && (forall n :: 0 <= n < |ms| ==> !ms[n].role.Unknown?) ==>
      Refusal(markers, ms) ==
        if !exists n: nat :: SpeaksAt(ms, n) && ms[n].role.Assistant? then Some(EmptyConversations)
        else if exists n: nat :: FirstToSpeak(ms, n) && ms[n].role.Assistant? then Some(StartsWithAssistant)
        else None
  {
    LeaksIff(markers, ms);
    var at := TurnsMean(ms);
    SpeakersSpeak(ms, at);
    if !KnownRoles(ms) {
      OneFirstStrange(ms);
    }
  }

  lemma OneFirstStrange(ms: seq<Message>)
    requires !KnownRoles(ms)
    ensures forall n: nat :: FirstStrange(ms, n) ==> ms[n].role.name == FirstUnknown(ms)
  {
    var m := FirstUnknownIs(ms);
    forall n: nat | FirstStrange(ms, n) ensures n == m {}
  }
}
