/** The semantic state of a driver transcript: which event sequences are coherent. */
module Transcript {
  import opened Options

  /** A JSON value, as far as the checks look at it. */
  datatype Value = Null | Flag(on: bool) | Int(number: int) | Text(text: string) | Other

  type Data = map<string, Value>

  datatype Event = Event(kind: string, data: Data, sequence: int)

  datatype Run = Run(history: nat, latest: nat)

  datatype Plan = Plan(revision: nat, digest: string)

  datatype Attachment = Attachment(digest: string, mediaType: string, length: int)

  /** What a transcript has established so far. */
  datatype Log = Log(
    conversationSeen: bool,
    activeRun: Option<string>,
    runs: map<string, Run>,
    turns: set<string>,
    plans: map<string, Plan>,
    goals: map<string, nat>,
    attachments: set<Attachment>)

  /** The scenario: its provider and the attachments its manifest declares. */
  datatype Scenario = Scenario(provider: string, manifest: set<Attachment>)

  const PROVIDERS := {"claude", "codex", "claurst"}
  const MODES := {"ask", "plan", "agent"}
  const EFFORTS := {"low", "medium", "high"}
  const ROLES := {"user", "assistant", "system"}
  const NUMERIC := {"revision", "historyOrdinal", "ordinal", "byteLength", "cursor"}

  const EMPTY := Log(false, None, map[], {}, map[], map[], {})

  // ----- Reading data -----

  /** The characters Python strips. */
  predicate Space(c: char) {
    var n := c as int;
    || 9 <= n <= 13 || 28 <= n <= 32 || n == 0x85 || n == 0xA0 || n == 0x1680 || 0x2000 <= n <= 0x200A
    || n == 0x2028 || n == 0x2029 || n == 0x202F || n == 0x205F || n == 0x3000
  }

  predicate Blank(s: string) {
    forall i :: 0 <= i < |s| ==> Space(s[i])
  }

  predicate Identifier(v: Value) {
    v.Text? && !Blank(v.text)
  }

  predicate Has(data: Data, key: string) {
    key in data && (key in NUMERIC || Identifier(data[key]))
  }

  /** A boolean is not a number here. */
  predicate Natural(v: Value, least: nat) {
    v.Int? && v.number >= least
  }

  predicate Sha256(v: Value) {
    v.Text? && |v.text| == 71 && v.text[..7] == "sha256:"
    && forall i :: 7 <= i < 71 ==> '0' <= v.text[i] <= '9' || 'a' <= v.text[i] <= 'f'
  }

  predicate OneOf(data: Data, key: string, values: set<string>) {
    key in data ==> data[key].Text? && data[key].text in values
  }

  // ----- What one event does -----

  function Conversation(sc: Scenario, s: Log, data: Data): Option<Log> {
    if s.conversationSeen then None
    else if !(Has(data, "conversationId") && Has(data, "provider") && Has(data, "model")) then None
    else if !(Has(data, "effort") && Has(data, "mode")) then None
    else if data["provider"].text != sc.provider || data["provider"].text !in PROVIDERS then None
    else if data["effort"].text !in EFFORTS || data["mode"].text !in MODES then None
    else Some(s.(conversationSeen := true))
  }

  predicate Present(data: Data, key: string) {
    key in data && data[key] != Null
  }

  function StartRun(s: Log, data: Data): Option<Log> {
    if !(Has(data, "runId") && Has(data, "contextPolicy") && Has(data, "historyOrdinal")) then None
    else if !Natural(data["historyOrdinal"], 0) then None
    else
      var id, policy, history := data["runId"].text, data["contextPolicy"].text, data["historyOrdinal"].number;
      if id in s.runs || !(policy == "preserve" || policy == "clear") then None
      else if Present(data, "parentRunId")
              && (!Identifier(data["parentRunId"]) || data["parentRunId"].text !in s.runs
                  || (policy == "preserve" && history != s.runs[data["parentRunId"].text].latest)) then None
      else if policy == "clear" && history != 0 then None
      else if !OneOf(data, "provider", PROVIDERS) || !OneOf(data, "effort", EFFORTS) then None
      else if !OneOf(data, "mode", MODES) then None
      else Some(s.(runs := s.runs[id := Run(history, history)], activeRun := Some(id)))
  }

  /** The run a turn belongs to: the one it names, even by a null, or else the active one. */
  function TurnRun(s: Log, data: Data): Option<string> {
    if "runId" in data then if data["runId"].Text? then Some(data["runId"].text) else None
    else s.activeRun
  }

  function Turn(s: Log, data: Data): Option<Log> {
    if !(Has(data, "turnId") && Has(data, "ordinal")) then None
    else if !Natural(data["ordinal"], 1) then None
    else
      var id, ordinal, run := data["turnId"].text, data["ordinal"].number, TurnRun(s, data);
      if id in s.turns || run.None? || run.value !in s.runs then None
      else if ordinal <= s.runs[run.value].latest then None
      else Some(s.(runs := s.runs[run.value := s.runs[run.value].(latest := ordinal)], turns := s.turns + {id}))
  }

  function Message(s: Log, data: Data): Option<Log> {
    if Has(data, "role") && Has(data, "text") && data["role"].text in ROLES then Some(s) else None
  }

  function Activity(s: Log, data: Data): Option<Log> {
    if !(Has(data, "kind") && Has(data, "status")) then None
    else if data["kind"].text != "goal" then Some(s)
    else if !(Has(data, "goalId") && Has(data, "revision") && Has(data, "summary")) then None
    else if !Natural(data["revision"], 1) then None
    else
      var id, revision := data["goalId"].text, data["revision"].number;
      if revision <= (if id in s.goals then s.goals[id] else 0) then None
      else Some(s.(goals := s.goals[id := revision]))
  }

  function MakePlan(s: Log, data: Data): Option<Log> {
    if !(Has(data, "planId") && Has(data, "revision") && Has(data, "digest") && Has(data, "status")) then None
    else if !Natural(data["revision"], 1) || !Sha256(data["digest"]) then None
    else
      var id, revision, digest := data["planId"].text, data["revision"].number, data["digest"].text;
      if id in s.plans
         && (revision < s.plans[id].revision
             || (revision == s.plans[id].revision && digest != s.plans[id].digest)) then None
      else Some(s.(plans := s.plans[id := Plan(revision, digest)]))
  }

  /** A boolean length counts as 0 or 1: booleans are integers in Python, and equal to them. */
  function Length(v: Value): Option<nat> {
    match v
    case Int(n) => if n >= 0 then Some(n) else None
    case Flag(on) => Some(if on then 1 else 0)
    case _ => None
  }

  function AttachmentOf(data: Data): Option<Attachment> {
    if !(Has(data, "contentDigest") && Has(data, "mediaType")) then None
    else if !(Has(data, "byteLength") && Has(data, "turnId")) then None
    else if !Sha256(data["contentDigest"]) || Length(data["byteLength"]).None? then None
    else Some(Attachment(data["contentDigest"].text, data["mediaType"].text, Length(data["byteLength"]).value))
  }

  function Attach(sc: Scenario, s: Log, data: Data): Option<Log> {
    var item := AttachmentOf(data);
    if item.None? || data["turnId"].text !in s.turns then None
    else if item.value !in sc.manifest || item.value in s.attachments then None
    else Some(s.(attachments := s.attachments + {item.value}))
  }

  function Terminal(s: Log, data: Data, sequence: int): Option<Log> {
    if !Has(data, "outcome") then None
    else if "cursor" in data && !(Natural(data["cursor"], 1) && data["cursor"].number == sequence) then None
    else Some(s)
  }

  /** Events of any other kind are let pass. */
  function Apply(sc: Scenario, s: Log, e: Event): Option<Log> {
    if e.kind == "conversation" then Conversation(sc, s, e.data)
    else if e.kind == "run" then StartRun(s, e.data)
    else if e.kind == "turn" then Turn(s, e.data)
    else if e.kind == "message" then Message(s, e.data)
    else if e.kind == "activity" then Activity(s, e.data)
    else if e.kind == "plan" then MakePlan(s, e.data)
    else if e.kind == "attachment" then Attach(sc, s, e.data)
    else if e.kind == "terminal" then Terminal(s, e.data, e.sequence)
    else Some(s)
  }

  function Play(sc: Scenario, events: seq<Event>): Option<Log>
    decreases |events|
  {
    if events == [] then Some(EMPTY)
    else
      match Play(sc, events[..|events| - 1])
      case None => None
      case Some(s) => Apply(sc, s, events[|events| - 1])
  }

  // ----- The class -----

  class State {
    const scenario: Scenario
    var conversationSeen: bool
    var activeRun: Option<string>
    var runs: map<string, Run>
    var turns: set<string>
    var plans: map<string, Plan>
    var goals: map<string, nat>
    var attachments: set<Attachment>

    constructor (scenario: Scenario)
      ensures this.scenario == scenario && View() == EMPTY
    {
      this.scenario := scenario;
      conversationSeen, activeRun, runs, turns, plans, goals, attachments := false, None, map[], {}, map[], map[], {};
    }

    function View(): Log
      reads this
    {
      Log(conversationSeen, activeRun, runs, turns, plans, goals, attachments)
    }

    /** The outcome of a handler: the new state on success, no change on failure. */
    twostate predicate Outcome(ok: bool, next: Option<Log>)
      reads this
    {
      if ok then next == Some(View()) else next == None && View() == old(View())
    }

    method Require(data: Data, keys: seq<string>) returns (ok: bool)
      ensures ok <==> forall i :: 0 <= i < |keys| ==> Has(data, keys[i])
    {
      var i := 0;
      while i < |keys|
        invariant 0 <= i <= |keys|
        invariant forall j :: 0 <= j < i ==> Has(data, keys[j])
      {
        if !Has(data, keys[i]) {
          return false;
        }
        i := i + 1;
      }
      return true;
    }

    method HandleConversation(data: Data) returns (ok: bool)
      modifies this
      ensures Outcome(ok, Conversation(scenario, old(View()), data))
    {
      if conversationSeen {
        return false;
      }
      var keys := ["conversationId", "provider", "model", "effort", "mode"];
      ok := Require(data, keys);
      if !ok {
        assert !Has(data, keys[0]) || !Has(data, keys[1]) || !Has(data, keys[2])
            || !Has(data, keys[3]) || !Has(data, keys[4]);
        return;
      }
      assert Has(data, keys[0]) && Has(data, keys[1]) && Has(data, keys[2]) && Has(data, keys[3]) && Has(data, keys[4]);
      if data["provider"].text != scenario.provider || data["provider"].text !in PROVIDERS {
        return false;
      }
      if data["effort"].text !in EFFORTS || data["mode"].text !in MODES {
        return false;
      }
      conversationSeen := true;
    }

    method HandleRun(data: Data) returns (ok: bool)
      modifies this
      ensures Outcome(ok, StartRun(old(View()), data))
    {
      var keys := ["runId", "contextPolicy", "historyOrdinal"];
      ok := Require(data, keys);
      if !ok {
        assert !Has(data, keys[0]) || !Has(data, keys[1]) || !Has(data, keys[2]);
        return;
      }
      assert Has(data, keys[0]) && Has(data, keys[1]) && Has(data, keys[2]);
      if !Natural(data["historyOrdinal"], 0) {
        return false;
      }
      var id, policy, history := data["runId"].text, data["contextPolicy"].text, data["historyOrdinal"].number;
      if id in runs || !(policy == "preserve" || policy == "clear") {
        return false;
      }
      if Present(data, "parentRunId") {
        if !Identifier(data["parentRunId"]) || data["parentRunId"].text !in runs {
          return false;
        }
        if policy == "preserve" && history != runs[data["parentRunId"].text].latest {
          return false;
        }
      }
      if policy == "clear" && history != 0 {
        return false;
      }
      if !(OneOf(data, "provider", PROVIDERS) && OneOf(data, "effort", EFFORTS) && OneOf(data, "mode", MODES)) {
        return false;
      }
      runs := runs[id := Run(history, history)];
      activeRun := Some(id);
    }

    method HandleTurn(data: Data) returns (ok: bool)
      modifies this
      ensures Outcome(ok, Turn(old(View()), data))
    {
      var keys := ["turnId", "ordinal"];
      ok := Require(data, keys);
      if !ok {
        assert !Has(data, keys[0]) || !Has(data, keys[1]);
        return;
      }
      assert Has(data, keys[0]) && Has(data, keys[1]);
      if !Natural(data["ordinal"], 1) {
        return false;
      }
      var id, ordinal := data["turnId"].text, data["ordinal"].number;
      var run := TurnRun(View(), data);
      if id in turns || run.None? || run.value !in runs {
        return false;
      }
      if ordinal <= runs[run.value].latest {
        return false;
      }
      runs := runs[run.value := runs[run.value].(latest := ordinal)];
      turns := turns + {id};
    }

    method HandleActivity(data: Data) returns (ok: bool)
      modifies this
      ensures Outcome(ok, Activity(old(View()), data))
    {
      if !Has(data, "kind") || !Has(data, "status") {
        return false;
      }
      if data["kind"].text != "goal" {
        return true;
      }
      if !Has(data, "goalId") || !Has(data, "revision") || !Has(data, "summary") || !Natural(data["revision"], 1) {
        return false;
      }
      var id, revision := data["goalId"].text, data["revision"].number;
      var previous := if id in goals then goals[id] else 0;
      if revision <= previous {
        return false;
      }
      goals := goals[id := revision];
      return true;
    }

    method HandlePlan(data: Data) returns (ok: bool)
      modifies this
      ensures Outcome(ok, MakePlan(old(View()), data))
    {
      if !Has(data, "planId") || !Has(data, "revision") || !Has(data, "digest") || !Has(data, "status") {
        return false;
      }
      if !Natural(data["revision"], 1) || !Sha256(data["digest"]) {
        return false;
      }
      var id, revision, digest := data["planId"].text, data["revision"].number, data["digest"].text;
      if id in plans
         && (revision < plans[id].revision || (revision == plans[id].revision && digest != plans[id].digest)) {
        return false;
      }
      plans := plans[id := Plan(revision, digest)];
      return true;
    }

    method HandleAttachment(data: Data) returns (ok: bool)
      modifies this
      ensures Outcome(ok, Attach(scenario, old(View()), data))
    {
      var item := AttachmentOf(data);
      if item.None? || data["turnId"].text !in turns {
        return false;
      }
      if item.value !in scenario.manifest || item.value in attachments {
        return false;
      }
      attachments := attachments + {item.value};
      return true;
    }

    method Handle(e: Event) returns (ok: bool)
      modifies this
      ensures Outcome(ok, Apply(scenario, old(View()), e))
    {
      hide Conversation, StartRun, Turn, Activity, MakePlan, Attach;
      if e.kind == "conversation" {
        ok := HandleConversation(e.data);
      } else if e.kind == "run" {
        ok := HandleRun(e.data);
      } else if e.kind == "turn" {
        ok := HandleTurn(e.data);
      } else if e.kind == "message" {
        ok := Message(View(), e.data).Some?;
      } else if e.kind == "activity" {
        ok := HandleActivity(e.data);
      } else if e.kind == "plan" {
        ok := HandlePlan(e.data);
      } else if e.kind == "attachment" {
        ok := HandleAttachment(e.data);
      } else if e.kind == "terminal" {
        ok := Terminal(View(), e.data, e.sequence).Some?;
      } else {
        ok := true;
      }
    }

    /** The last check, on attachments without any turn. */
    method Finish() returns (ok: bool)
      ensures ok <==> attachments == {} || turns != {}
    {
      return attachments == {} || turns != {};
    }
  }
}
