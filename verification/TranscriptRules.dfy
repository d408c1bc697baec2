/** The rules of a coherent transcript, said of its events alone: what each event needs of the events before it. */
module TranscriptRules {
  import opened Options
  import opened Transcript
  import opened TranscriptRuns

  // ----- Reading one event -----

  const WHITESPACE := {'\t', '\n', '\U{0B}', '\U{0C}', '\r', '\U{1C}', '\U{1D}', '\U{1E}', '\U{1F}', ' ', '\U{85}',
                       '\U{A0}', '\U{1680}', '\U{2000}', '\U{2001}', '\U{2002}', '\U{2003}', '\U{2004}', '\U{2005}',
                       '\U{2006}', '\U{2007}', '\U{2008}', '\U{2009}', '\U{200A}', '\U{2028}', '\U{2029}', '\U{202F}',
                       '\U{205F}', '\U{3000}'}

  /** A text with something in it. */
  predicate Filled(data: Data, key: string) {
    key in data && data[key].Text? && exists i :: 0 <= i < |data[key].text| && data[key].text[i] !in WHITESPACE
  }

  predicate IntegerAt(data: Data, key: string, least: int) {
    key in data && data[key].Int? && data[key].number >= least
  }

  function TextAt(data: Data, key: string): string {
    if key in data && data[key].Text? then data[key].text else ""
  }

  function NumberAt(data: Data, key: string): int {
    if key in data && data[key].Int? then data[key].number else 0
  }

  predicate IsDigest(s: string) {
    |s| == 71 && s[..7] == "sha256:" && forall i :: 7 <= i < 71 ==> s[i] in "0123456789abcdef"
  }

  /** The attachment an event is about; a boolean length counts as a number. */
  function ItemOf(data: Data): Attachment {
    var length :=
      if "byteLength" in data && data["byteLength"].Flag? then if data["byteLength"].on then 1 else 0
      else NumberAt(data, "byteLength");
    Attachment(TextAt(data, "contentDigest"), TextAt(data, "mediaType"), length)
  }

  // ----- What the events before a position say -----

  function LastRun(events: seq<Event>, k: nat): Option<string>
    requires k <= |events|
  {
    if k == 0 then None
    else if events[k - 1].kind == "run" then Some(TextAt(events[k - 1].data, "runId"))
    else LastRun(events, k - 1)
  }

  /** The run of the turn at a position: the one it names, or else the one started last. */
  function Home(events: seq<Event>, k: nat): Option<string>
    requires k < |events|
  {
    var data := events[k].data;
    if "runId" in data then if data["runId"].Text? then Some(data["runId"].text) else None else LastRun(events, k)
  }

  /** How far a run has got: the ordinal of its last turn, or of the history it started from. */
  function Reached(events: seq<Event>, k: nat, run: string): int
    requires k <= |events|
  {
    if k == 0 then 0
    else
      var e := events[k - 1];
      if e.kind == "run" && TextAt(e.data, "runId") == run then NumberAt(e.data, "historyOrdinal")
      else if e.kind == "turn" && Home(events, k - 1) == Some(run) then NumberAt(e.data, "ordinal")
      else Reached(events, k - 1, run)
  }

  /** Some earlier event of this kind has this text under this key. */
  ghost predicate Earlier(events: seq<Event>, k: nat, kind: string, key: string, s: string)
    requires k <= |events|
  {
    exists i :: 0 <= i < k && events[i].kind == kind && TextAt(events[i].data, key) == s
  }

  predicate IsGoal(e: Event) {
    e.kind == "activity" && TextAt(e.data, "kind") == "goal"
  }

  /** The last revision of a goal, 0 before the first. */
  function GoalRevision(events: seq<Event>, k: nat, id: string): int
    requires k <= |events|
  {
    if k == 0 then 0
    else if IsGoal(events[k - 1]) && TextAt(events[k - 1].data, "goalId") == id then
      NumberAt(events[k - 1].data, "revision")
    else GoalRevision(events, k - 1, id)
  }

  /** The last event about a plan. */
  function LastPlan(events: seq<Event>, k: nat, id: string): Option<(int, string)>
    requires k <= |events|
  {
    if k == 0 then None
    else
      var data := events[k - 1].data;
      if events[k - 1].kind == "plan" && TextAt(data, "planId") == id then
        Some((NumberAt(data, "revision"), TextAt(data, "digest")))
      else LastPlan(events, k - 1, id)
  }

  ghost predicate Attached(events: seq<Event>, k: nat, item: Attachment)
    requires k <= |events|
  {
    exists i :: 0 <= i < k && events[i].kind == "attachment" && ItemOf(events[i].data) == item
  }

  ghost predicate Conversed(events: seq<Event>, k: nat)
    requires k <= |events|
  {
    exists i :: 0 <= i < k && events[i].kind == "conversation"
  }

  // ----- The rules -----

  ghost predicate ConversationRule(sc: Scenario, events: seq<Event>, k: nat)
    requires k < |events|
  {
    var data := events[k].data;
    && !Conversed(events, k)
    && Filled(data, "conversationId") && Filled(data, "provider") && Filled(data, "model") && Filled(data, "effort")
    && Filled(data, "mode")
    && TextAt(data, "provider") == sc.provider && TextAt(data, "provider") in {"claude", "codex", "claurst"}
    && TextAt(data, "effort") in {"low", "medium", "high"} && TextAt(data, "mode") in {"ask", "plan", "agent"}
  }

  predicate OneAmong(data: Data, key: string, values: set<string>) {
    key in data ==> data[key].Text? && data[key].text in values
  }

  ghost predicate ParentRule(events: seq<Event>, k: nat)
    requires k < |events|
  {
    var data := events[k].data;
    "parentRunId" in data && data["parentRunId"] != Null ==>
      && Filled(data, "parentRunId") && Earlier(events, k, "run", "runId", TextAt(data, "parentRunId"))
      && (TextAt(data, "contextPolicy") == "preserve" ==>
            NumberAt(data, "historyOrdinal") == Reached(events, k, TextAt(data, "parentRunId")))
  }

  ghost predicate RunRule(events: seq<Event>, k: nat)
    requires k < |events|
  {
    var data := events[k].data;
    && Filled(data, "runId") && Filled(data, "contextPolicy") && IntegerAt(data, "historyOrdinal", 0)
    && !Earlier(events, k, "run", "runId", TextAt(data, "runId"))
    && (TextAt(data, "contextPolicy") == "preserve"
        || (TextAt(data, "contextPolicy") == "clear" && NumberAt(data, "historyOrdinal") == 0))
    && ParentRule(events, k)
    && OneAmong(data, "provider", {"claude", "codex", "claurst"}) && OneAmong(data, "effort", {"low", "medium", "high"})
    && OneAmong(data, "mode", {"ask", "plan", "agent"})
  }

  ghost predicate TurnRule(events: seq<Event>, k: nat)
    requires k < |events|
  {
    var data := events[k].data;
    && Filled(data, "turnId") && IntegerAt(data, "ordinal", 1)
    && !Earlier(events, k, "turn", "turnId", TextAt(data, "turnId"))
    && Home(events, k).Some? && Earlier(events, k, "run", "runId", Home(events, k).value)
    && NumberAt(data, "ordinal") > Reached(events, k, Home(events, k).value)
  }

  predicate MessageRule(data: Data) {
    Filled(data, "role") && Filled(data, "text") && TextAt(data, "role") in {"user", "assistant", "system"}
  }

  ghost predicate ActivityRule(events: seq<Event>, k: nat)
    requires k < |events|
  {
    var data := events[k].data;
    && Filled(data, "kind") && Filled(data, "status")
    && (TextAt(data, "kind") == "goal" ==>
          && Filled(data, "goalId") && Filled(data, "summary") && IntegerAt(data, "revision", 1)
          && NumberAt(data, "revision") > GoalRevision(events, k, TextAt(data, "goalId")))
  }

  ghost predicate PlanRule(events: seq<Event>, k: nat)
    requires k < |events|
  {
    var data := events[k].data;
    && Filled(data, "planId") && Filled(data, "digest") && Filled(data, "status") && IntegerAt(data, "revision", 1)
    && IsDigest(TextAt(data, "digest"))
    && var last := LastPlan(events, k, TextAt(data, "planId"));
       last.Some? ==>
         || NumberAt(data, "revision") > last.value.0
         || (NumberAt(data, "revision") == last.value.0 && TextAt(data, "digest") == last.value.1)
  }

  ghost predicate AttachmentRule(sc: Scenario, events: seq<Event>, k: nat)
    requires k < |events|
  {
    var data := events[k].data;
    && Filled(data, "contentDigest") && Filled(data, "mediaType") && Filled(data, "turnId")
    && IsDigest(TextAt(data, "contentDigest"))
    && (IntegerAt(data, "byteLength", 0) || ("byteLength" in data && data["byteLength"].Flag?))
    && Earlier(events, k, "turn", "turnId", TextAt(data, "turnId"))
    && ItemOf(data) in sc.manifest && !Attached(events, k, ItemOf(data))
  }

  predicate TerminalRule(e: Event) {
    && Filled(e.data, "outcome")
    && ("cursor" in e.data ==> IntegerAt(e.data, "cursor", 1) && NumberAt(e.data, "cursor") == e.sequence)
  }

  /** What the event at a position needs. */
  ghost predicate Rule(sc: Scenario, events: seq<Event>, k: nat)
    requires k < |events|
  {
    var kind := events[k].kind;
    && (kind == "conversation" ==> ConversationRule(sc, events, k))
    && (kind == "run" ==> RunRule(events, k))
    && (kind == "turn" ==> TurnRule(events, k))
    && (kind == "message" ==> MessageRule(events[k].data))
    && (kind == "activity" ==> ActivityRule(events, k))
    && (kind == "plan" ==> PlanRule(events, k))
    && (kind == "attachment" ==> AttachmentRule(sc, events, k))
    && (kind == "terminal" ==> TerminalRule(events[k]))
  }

  // ----- The checks on data are these -----

  lemma SpaceIs(c: char)
    ensures Space(c) <==> c in WHITESPACE
  {
  }

  lemma HasIs(data: Data, key: string)
    ensures key !in NUMERIC ==> (Has(data, key) <==> Filled(data, key))
    ensures key in NUMERIC ==> (Has(data, key) <==> key in data)
    ensures key in data ==> (Identifier(data[key]) <==> Filled(data, key))
    ensures Filled(data, key) ==> key in data && data[key] == Text(TextAt(data, key))
  {
    hide Space;
    forall c: char
      ensures Space(c) <==> c in WHITESPACE
    {
      SpaceIs(c);
    }
  }

  lemma DigestIs(v: Value)
    ensures v.Text? ==> (Sha256(v) <==> IsDigest(v.text))
  {
    forall c: char
      ensures ('0' <= c <= '9' || 'a' <= c <= 'f') <==> c in "0123456789abcdef"
    {
      HexMark(c);
    }
  }

  lemma HexMark(c: char)
    ensures ('0' <= c <= '9' || 'a' <= c <= 'f') <==> c in "0123456789abcdef"
  {
  }

  // ----- The log mirrors the events -----

  ghost predicate Mirrors(s: Log, events: seq<Event>, k: nat)
    requires k <= |events|
  {
    && (s.conversationSeen <==> Conversed(events, k))
    && s.activeRun == LastRun(events, k)
    && (forall r :: r in s.runs <==> Earlier(events, k, "run", "runId", r))
    && (forall r :: r in s.runs ==> s.runs[r].latest == Reached(events, k, r))
    && (forall t :: t in s.turns <==> Earlier(events, k, "turn", "turnId", t))
    && (forall p :: p in s.plans <==> LastPlan(events, k, p).Some?)
    && (forall p :: p in s.plans ==> (s.plans[p].revision as int, s.plans[p].digest) == LastPlan(events, k, p).value)
    && (forall g :: (if g in s.goals then s.goals[g] else 0) == GoalRevision(events, k, g))
    && (forall a :: a in s.attachments <==> Attached(events, k, a))
  }

  lemma EarlierMore(events: seq<Event>, k: nat, kind: string, key: string, s: string)
    requires k < |events|
    ensures Earlier(events, k + 1, kind, key, s) <==>
      Earlier(events, k, kind, key, s) || (events[k].kind == kind && TextAt(events[k].data, key) == s)
  {
  }

  lemma AttachedMore(events: seq<Event>, k: nat, item: Attachment)
    requires k < |events|
    ensures Attached(events, k + 1, item) <==>
      Attached(events, k, item) || (events[k].kind == "attachment" && ItemOf(events[k].data) == item)
  {
  }

  lemma ConversedMore(events: seq<Event>, k: nat)
    requires k < |events|
    ensures Conversed(events, k + 1) <==> Conversed(events, k) || events[k].kind == "conversation"
  {
  }

  /** What one more event adds to what the events say. */
  lemma OneMore(events: seq<Event>, k: nat)
    requires k < |events|
    ensures Conversed(events, k + 1) <==> Conversed(events, k) || events[k].kind == "conversation"
    ensures LastRun(events, k + 1)
         == if events[k].kind == "run" then Some(TextAt(events[k].data, "runId")) else LastRun(events, k)
    ensures forall r :: Earlier(events, k + 1, "run", "runId", r) <==>
              Earlier(events, k, "run", "runId", r) || (events[k].kind == "run" && TextAt(events[k].data, "runId") == r)
    ensures forall t :: Earlier(events, k + 1, "turn", "turnId", t) <==>
              Earlier(events, k, "turn", "turnId", t)
              || (events[k].kind == "turn" && TextAt(events[k].data, "turnId") == t)
    ensures forall a :: Attached(events, k + 1, a) <==>
              Attached(events, k, a) || (events[k].kind == "attachment" && ItemOf(events[k].data) == a)
  {
    hide Earlier, Attached, Conversed, ItemOf;
    ConversedMore(events, k);
    forall r
      ensures Earlier(events, k + 1, "run", "runId", r) <==>
                Earlier(events, k, "run", "runId", r)
                || (events[k].kind == "run" && TextAt(events[k].data, "runId") == r)
    {
      EarlierMore(events, k, "run", "runId", r);
    }
    forall t
      ensures Earlier(events, k + 1, "turn", "turnId", t) <==>
                Earlier(events, k, "turn", "turnId", t)
                || (events[k].kind == "turn" && TextAt(events[k].data, "turnId") == t)
    {
      EarlierMore(events, k, "turn", "turnId", t);
    }
    forall a
      ensures Attached(events, k + 1, a) <==>
                Attached(events, k, a) || (events[k].kind == "attachment" && ItemOf(events[k].data) == a)
    {
      AttachedMore(events, k, a);
    }
  }

  // ----- One step -----

  ghost predicate Steps(sc: Scenario, s: Log, events: seq<Event>, k: nat)
    requires k < |events|
  {
    var t := Apply(sc, s, events[k]);
    (t.Some? <==> Rule(sc, events, k)) && (t.Some? ==> Mirrors(t.value, events, k + 1))
  }

  const WORDS := {"conversationId", "provider", "model", "effort", "mode", "runId", "contextPolicy", "parentRunId",
                  "turnId", "role", "text", "kind", "status", "goalId", "summary", "planId", "digest", "contentDigest",
                  "mediaType", "outcome"}

  lemma WordKeys()
    ensures WORDS !! NUMERIC
  {
  }

  lemma TextHas(data: Data, key: string)
    requires key in WORDS
    ensures Has(data, key) <==> Filled(data, key)
    ensures key in data ==> (Identifier(data[key]) <==> Filled(data, key))
    ensures Filled(data, key) ==> key in data && data[key] == Text(TextAt(data, key))
  {
    WordKeys();
    HasIs(data, key);
  }

  lemma NumberHas(data: Data, key: string)
    requires key in {"revision", "historyOrdinal", "ordinal", "byteLength", "cursor"}
    ensures Has(data, key) <==> key in data
    ensures forall least: nat :: key in data ==> (Natural(data[key], least) <==> IntegerAt(data, key, least))
    ensures key in data && data[key].Int? ==> NumberAt(data, key) == data[key].number
  {
    HasIs(data, key);
  }

  lemma ConversationAccepted(sc: Scenario, s: Log, events: seq<Event>, k: nat)
    requires k < |events| && Mirrors(s, events, k) && events[k].kind == "conversation"
    ensures Conversation(sc, s, events[k].data).Some? <==> ConversationRule(sc, events, k)
  {
    hide Has, Filled, Earlier, Attached, Conversed;
    var data := events[k].data;
    TextHas(data, "conversationId");
    TextHas(data, "provider");
    TextHas(data, "model");
    TextHas(data, "effort");
    TextHas(data, "mode");
  }

  /** An event that is no run, turn, plan, goal or attachment leaves the log alone, but for the conversation. */
  lemma QuietMirrors(s: Log, events: seq<Event>, k: nat)
    requires k < |events| && Mirrors(s, events, k) && !IsGoal(events[k])
    requires events[k].kind !in {"run", "turn", "plan", "attachment"}
    ensures Mirrors(if events[k].kind == "conversation" then s.(conversationSeen := true) else s, events, k + 1)
  {
    hide Earlier, Attached, Conversed, ItemOf;
    OneMore(events, k);
  }

  lemma ConversationStep(sc: Scenario, s: Log, events: seq<Event>, k: nat)
    requires k < |events| && Mirrors(s, events, k) && events[k].kind == "conversation"
    ensures Steps(sc, s, events, k)
  {
    hide ConversationRule, Mirrors, Has;
    ConversationAccepted(sc, s, events, k);
    QuietMirrors(s, events, k);
  }

  lemma OneAmongIs(data: Data)
    ensures OneAmong(data, "provider", {"claude", "codex", "claurst"}) <==> OneOf(data, "provider", PROVIDERS)
    ensures OneAmong(data, "effort", {"low", "medium", "high"}) <==> OneOf(data, "effort", EFFORTS)
    ensures OneAmong(data, "mode", {"ask", "plan", "agent"}) <==> OneOf(data, "mode", MODES)
  {
  }

  lemma RunAccepted(s: Log, events: seq<Event>, k: nat)
    requires k < |events| && Mirrors(s, events, k) && events[k].kind == "run"
    ensures StartRun(s, events[k].data).Some? <==> RunRule(events, k)
  {
    hide Has, Filled, Identifier, Earlier, Attached, Conversed, OneOf, OneAmong, Natural, IntegerAt;
    var data := events[k].data;
    TextHas(data, "runId");
    TextHas(data, "contextPolicy");
    TextHas(data, "parentRunId");
    NumberHas(data, "historyOrdinal");
    OneAmongIs(data);
    IntegerIs(data, "historyOrdinal", 0);
  }

  lemma IntegerIs(data: Data, key: string, least: int)
    ensures IntegerAt(data, key, least) ==> key in data && data[key] == Int(NumberAt(data, key))
  {
  }

  lemma RunMirrors(s: Log, events: seq<Event>, k: nat)
    requires k < |events| && Mirrors(s, events, k) && events[k].kind == "run" && StartRun(s, events[k].data).Some?
    ensures Mirrors(StartRun(s, events[k].data).value, events, k + 1)
  {
    hide Has, Filled, Identifier, Earlier, Attached, Conversed, OneOf, OneAmong, Natural, IntegerAt, ItemOf;
    var data := events[k].data;
    TextHas(data, "runId");
    NumberHas(data, "historyOrdinal");
    IntegerIs(data, "historyOrdinal", 0);
    OneMore(events, k);
  }

  lemma TurnAccepted(s: Log, events: seq<Event>, k: nat)
    requires k < |events| && Mirrors(s, events, k) && events[k].kind == "turn"
    ensures Turn(s, events[k].data).Some? <==> TurnRule(events, k)
  {
    hide Has, Filled, Identifier, Earlier, Attached, Conversed, Natural, IntegerAt;
    var data := events[k].data;
    TextHas(data, "turnId");
    NumberHas(data, "ordinal");
    IntegerIs(data, "ordinal", 1);
  }

  lemma TurnMirrors(s: Log, events: seq<Event>, k: nat)
    requires k < |events| && Mirrors(s, events, k) && events[k].kind == "turn" && Turn(s, events[k].data).Some?
    ensures Mirrors(Turn(s, events[k].data).value, events, k + 1)
  {
    hide Has, Filled, Identifier, Earlier, Attached, Conversed, Natural, IntegerAt, ItemOf;
    var data := events[k].data;
    TextHas(data, "turnId");
    NumberHas(data, "ordinal");
    IntegerIs(data, "ordinal", 1);
    OneMore(events, k);
  }

  lemma MessageStep(sc: Scenario, s: Log, events: seq<Event>, k: nat)
    requires k < |events| && Mirrors(s, events, k) && events[k].kind == "message"
    ensures Steps(sc, s, events, k)
  {
    hide Has, Filled, Mirrors;
    TextHas(events[k].data, "role");
    TextHas(events[k].data, "text");
    QuietMirrors(s, events, k);
  }

  lemma ActivityAccepted(s: Log, events: seq<Event>, k: nat)
    requires k < |events| && Mirrors(s, events, k) && events[k].kind == "activity"
    ensures Activity(s, events[k].data).Some? <==> ActivityRule(events, k)
  {
    hide Has, Filled, Earlier, Attached, Conversed, Natural, IntegerAt;
    var data := events[k].data;
    TextHas(data, "kind");
    TextHas(data, "status");
    TextHas(data, "goalId");
    TextHas(data, "summary");
    NumberHas(data, "revision");
    IntegerIs(data, "revision", 1);
  }

  lemma GoalMirrors(s: Log, events: seq<Event>, k: nat)
    requires k < |events| && Mirrors(s, events, k) && IsGoal(events[k]) && Activity(s, events[k].data).Some?
    ensures Mirrors(Activity(s, events[k].data).value, events, k + 1)
  {
    hide Has, Filled, Earlier, Attached, Conversed, ItemOf, Natural, IntegerAt;
    var data := events[k].data;
    OneMore(events, k);
    TextHas(data, "kind");
    TextHas(data, "goalId");
    NumberHas(data, "revision");
    IntegerIs(data, "revision", 1);
  }

  lemma OtherActivity(s: Log, data: Data)
    requires Activity(s, data).Some? && TextAt(data, "kind") != "goal"
    ensures Activity(s, data).value == s
  {
    hide Has, Filled;
    TextHas(data, "kind");
  }

  lemma ActivityStep(sc: Scenario, s: Log, events: seq<Event>, k: nat)
    requires k < |events| && Mirrors(s, events, k) && events[k].kind == "activity"
    ensures Steps(sc, s, events, k)
  {
    hide Activity, ActivityRule, Mirrors;
    ActivityAccepted(s, events, k);
    if Activity(s, events[k].data).Some? {
      if IsGoal(events[k]) {
        GoalMirrors(s, events, k);
      } else {
        OtherActivity(s, events[k].data);
        QuietMirrors(s, events, k);
      }
    }
  }

  lemma PlanAccepted(s: Log, events: seq<Event>, k: nat)
    requires k < |events| && Mirrors(s, events, k) && events[k].kind == "plan"
    ensures MakePlan(s, events[k].data).Some? <==> PlanRule(events, k)
  {
    hide Has, Filled, Earlier, Attached, Conversed, Natural, IntegerAt, Sha256, IsDigest;
    var data := events[k].data;
    TextHas(data, "planId");
    TextHas(data, "digest");
    TextHas(data, "status");
    NumberHas(data, "revision");
    IntegerIs(data, "revision", 1);
    if "digest" in data {
      DigestIs(data["digest"]);
    }
  }

  lemma PlanMirrors(s: Log, events: seq<Event>, k: nat)
    requires k < |events| && Mirrors(s, events, k) && events[k].kind == "plan" && MakePlan(s, events[k].data).Some?
    ensures Mirrors(MakePlan(s, events[k].data).value, events, k + 1)
  {
    hide Has, Filled, Earlier, Attached, Conversed, ItemOf, Natural, IntegerAt, Sha256, IsDigest;
    var data := events[k].data;
    OneMore(events, k);
    TextHas(data, "planId");
    TextHas(data, "digest");
    NumberHas(data, "revision");
    IntegerIs(data, "revision", 1);
  }

  lemma PlanStep(sc: Scenario, s: Log, events: seq<Event>, k: nat)
    requires k < |events| && Mirrors(s, events, k) && events[k].kind == "plan"
    ensures Steps(sc, s, events, k)
  {
    hide MakePlan, PlanRule, Mirrors;
    PlanAccepted(s, events, k);
    if MakePlan(s, events[k].data).Some? {
      PlanMirrors(s, events, k);
    }
  }

  lemma ItemIs(data: Data)
    ensures AttachmentOf(data).Some? <==>
      && Filled(data, "contentDigest") && Filled(data, "mediaType") && Filled(data, "turnId")
      && IsDigest(TextAt(data, "contentDigest"))
      && (IntegerAt(data, "byteLength", 0) || ("byteLength" in data && data["byteLength"].Flag?))
    ensures AttachmentOf(data).Some? ==> AttachmentOf(data).value == ItemOf(data)
    ensures AttachmentOf(data).Some? ==> data["turnId"] == Text(TextAt(data, "turnId"))
  {
    hide Has, Filled, Sha256, IsDigest;
    TextHas(data, "contentDigest");
    TextHas(data, "mediaType");
    TextHas(data, "turnId");
    NumberHas(data, "byteLength");
    if "contentDigest" in data {
      DigestIs(data["contentDigest"]);
    }
  }

  lemma AttachmentStep(sc: Scenario, s: Log, events: seq<Event>, k: nat)
    requires k < |events| && Mirrors(s, events, k) && events[k].kind == "attachment"
    ensures Steps(sc, s, events, k)
  {
    hide Has, Filled, Earlier, Attached, Conversed, ItemOf, AttachmentOf, IntegerAt, IsDigest;
    OneMore(events, k);
    ItemIs(events[k].data);
  }

  lemma TerminalStep(sc: Scenario, s: Log, events: seq<Event>, k: nat)
    requires k < |events| && Mirrors(s, events, k) && events[k].kind == "terminal"
    ensures Steps(sc, s, events, k)
  {
    hide Has, Filled, Mirrors;
    TextHas(events[k].data, "outcome");
    NumberHas(events[k].data, "cursor");
    QuietMirrors(s, events, k);
  }

  lemma OtherStep(sc: Scenario, s: Log, events: seq<Event>, k: nat)
    requires k < |events| && Mirrors(s, events, k)
    requires events[k].kind !in {"conversation", "run", "turn", "message", "activity", "plan", "attachment", "terminal"}
    ensures Steps(sc, s, events, k)
  {
    hide Mirrors;
    QuietMirrors(s, events, k);
  }

  lemma EveryStep(sc: Scenario, s: Log, events: seq<Event>, k: nat)
    requires k < |events| && Mirrors(s, events, k)
    ensures Steps(sc, s, events, k)
  {
    hide Mirrors, StartRun, Turn, RunRule, TurnRule, Steps;
    var kind := events[k].kind;
    if kind == "conversation" {
      ConversationStep(sc, s, events, k);
    } else if kind == "run" {
      RunStep(sc, s, events, k);
    } else if kind == "turn" {
      TurnStep(sc, s, events, k);
    } else if kind == "message" {
      MessageStep(sc, s, events, k);
    } else if kind == "activity" {
      ActivityStep(sc, s, events, k);
    } else if kind == "plan" {
      PlanStep(sc, s, events, k);
    } else if kind == "attachment" {
      AttachmentStep(sc, s, events, k);
    } else if kind == "terminal" {
      TerminalStep(sc, s, events, k);
    } else {
      OtherStep(sc, s, events, k);
    }
  }

  lemma RunStep(sc: Scenario, s: Log, events: seq<Event>, k: nat)
    requires k < |events| && Mirrors(s, events, k) && events[k].kind == "run"
    ensures Steps(sc, s, events, k)
  {
    hide StartRun, RunRule, Mirrors;
    RunAccepted(s, events, k);
    if StartRun(s, events[k].data).Some? {
      RunMirrors(s, events, k);
    }
  }

  lemma TurnStep(sc: Scenario, s: Log, events: seq<Event>, k: nat)
    requires k < |events| && Mirrors(s, events, k) && events[k].kind == "turn"
    ensures Steps(sc, s, events, k)
  {
    hide Turn, TurnRule, Mirrors;
    TurnAccepted(s, events, k);
    if Turn(s, events[k].data).Some? {
      TurnMirrors(s, events, k);
    }
  }

  // ----- Whole transcripts -----

  lemma {:induction false} PlayMirrors(sc: Scenario, events: seq<Event>, k: nat)
    requires k <= |events|
    ensures Play(sc, events[..k]).Some? <==> forall i :: 0 <= i < k ==> Rule(sc, events, i)
    ensures Play(sc, events[..k]).Some? ==> Mirrors(Play(sc, events[..k]).value, events, k)
    decreases k
  {
    hide Rule, Apply;
    if k == 0 {
      NothingMirrored(events);
      assert events[..0] == [];
    } else {
      PlayMirrors(sc, events, k - 1);
      var part := events[..k];
      assert part[..|part| - 1] == events[..k - 1] && part[|part| - 1] == events[k - 1];
      hide Mirrors;
      if Play(sc, events[..k - 1]).Some? {
        EveryStep(sc, Play(sc, events[..k - 1]).value, events, k - 1);
      }
    }
  }

  lemma NothingMirrored(events: seq<Event>)
    ensures Mirrors(EMPTY, events, 0)
  {
  }

  /** A transcript is accepted exactly when every event keeps its rule. */
  lemma AcceptedExactly(sc: Scenario, events: seq<Event>)
    ensures Play(sc, events).Some? <==> forall k :: 0 <= k < |events| ==> Rule(sc, events, k)
  {
    hide Rule, Play, Mirrors;
    PlayMirrors(sc, events, |events|);
    assert events[..|events|] == events;
  }

  /** A turn that names no run belongs to the run started last, and moves that run and no other. */
  lemma TurnGoesHome(sc: Scenario, events: seq<Event>, k: nat)
    requires Play(sc, events).Some? && k < |events| && events[k].kind == "turn"
    ensures var s, t := Before(sc, events, k), Before(sc, events, k + 1);
            && Home(events, k).Some? && Home(events, k).value in s.runs && t.runs.Keys == s.runs.Keys
            && t.runs[Home(events, k).value].latest == NumberAt(events[k].data, "ordinal")
            && forall r :: r in s.runs && r != Home(events, k).value ==> t.runs[r] == s.runs[r]
  {
    hide Before, Mirrors, Rule, Turn, Play;
    At(sc, events, k);
    BeforeIs(sc, events, k);
    PlayMirrors(sc, events, k);
    MirrorHome(Before(sc, events, k), events, k);
    TurnMoves(Before(sc, events, k), events[k].data);
  }

  lemma TurnMoves(s: Log, data: Data)
    requires Turn(s, data).Some?
    ensures var t, run := Turn(s, data).value, TurnRun(s, data);
            && run.Some? && run.value in s.runs && t.runs.Keys == s.runs.Keys
            && t.runs[run.value].latest == NumberAt(data, "ordinal")
            && forall r :: r in s.runs && r != run.value ==> t.runs[r] == s.runs[r]
  {
    hide Has, IntegerAt;
    NumberHas(data, "ordinal");
  }

  lemma BeforeIs(sc: Scenario, events: seq<Event>, k: nat)
    requires Play(sc, events).Some? && k <= |events|
    ensures Play(sc, events[..k]) == Some(Before(sc, events, k))
  {
    PlayExtends(sc, events, k);
  }

  lemma MirrorHome(s: Log, events: seq<Event>, k: nat)
    requires k < |events| && Mirrors(s, events, k)
    ensures TurnRun(s, events[k].data) == Home(events, k)
  {
  }
}
