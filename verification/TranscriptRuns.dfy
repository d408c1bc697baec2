/** What every accepted transcript satisfies, over all its events. */
module TranscriptRuns {
  import opened Options
  import opened Transcript

  // ----- One event only ever extends the log -----

  /** A later revision, or the same one with the same digest. */
  predicate PlanLe(a: Plan, b: Plan) {
    a == b || a.revision < b.revision
  }

  /** `t` is a possible future of `s`. */
  ghost predicate Extends(s: Log, t: Log) {
    && (s.conversationSeen ==> t.conversationSeen)
    && (forall r :: r in s.runs ==>
          r in t.runs && t.runs[r].history == s.runs[r].history && s.runs[r].latest <= t.runs[r].latest)
    && s.turns <= t.turns
    && (forall p :: p in s.plans ==> p in t.plans && PlanLe(s.plans[p], t.plans[p]))
    && (forall g :: g in s.goals ==> g in t.goals && s.goals[g] <= t.goals[g])
    && s.attachments <= t.attachments
  }

  /** What holds of every log an accepted transcript produces. */
  ghost predicate LogOk(sc: Scenario, s: Log) {
    && (s.activeRun.Some? ==> s.activeRun.value in s.runs)
    && (forall r :: r in s.runs ==> s.runs[r].history <= s.runs[r].latest)
    && s.attachments <= sc.manifest
    && (s.attachments != {} ==> s.turns != {})
  }

  lemma ExtendsTrans(s: Log, t: Log, u: Log)
    requires Extends(s, t) && Extends(t, u)
    ensures Extends(s, u)
  {
  }

  lemma RunExtends(sc: Scenario, s: Log, data: Data)
    requires LogOk(sc, s) && StartRun(s, data).Some?
    ensures Extends(s, StartRun(s, data).value) && LogOk(sc, StartRun(s, data).value)
  {
    hide Has, Sha256, Identifier;
  }

  lemma TurnExtends(sc: Scenario, s: Log, data: Data)
    requires LogOk(sc, s) && Turn(s, data).Some?
    ensures Extends(s, Turn(s, data).value) && LogOk(sc, Turn(s, data).value)
  {
    hide Has, Sha256, Identifier;
  }

  lemma GoalExtends(sc: Scenario, s: Log, data: Data)
    requires LogOk(sc, s) && Activity(s, data).Some?
    ensures Extends(s, Activity(s, data).value) && LogOk(sc, Activity(s, data).value)
  {
    hide Has, Sha256, Identifier;
  }

  lemma PlanExtends(sc: Scenario, s: Log, data: Data)
    requires LogOk(sc, s) && MakePlan(s, data).Some?
    ensures Extends(s, MakePlan(s, data).value) && LogOk(sc, MakePlan(s, data).value)
  {
    hide Has, Sha256, Identifier;
  }

  lemma AttachmentExtends(sc: Scenario, s: Log, data: Data)
    requires LogOk(sc, s) && Attach(sc, s, data).Some?
    ensures Extends(s, Attach(sc, s, data).value) && LogOk(sc, Attach(sc, s, data).value)
  {
    hide Has, Sha256, Identifier, AttachmentOf;
  }

  lemma ApplyExtends(sc: Scenario, s: Log, e: Event)
    requires LogOk(sc, s) && Apply(sc, s, e).Some?
    ensures Extends(s, Apply(sc, s, e).value) && LogOk(sc, Apply(sc, s, e).value)
  {
    hide Has, StartRun, Turn, Activity, MakePlan, Attach, Extends;
    ExtendsSelf(s);
    if e.kind == "run" {
      RunExtends(sc, s, e.data);
    } else if e.kind == "turn" {
      TurnExtends(sc, s, e.data);
    } else if e.kind == "activity" {
      GoalExtends(sc, s, e.data);
    } else if e.kind == "plan" {
      PlanExtends(sc, s, e.data);
    } else if e.kind == "attachment" {
      AttachmentExtends(sc, s, e.data);
    } else if e.kind == "conversation" {
      ConversationExtends(sc, s, e.data);
    }
  }

  lemma ConversationExtends(sc: Scenario, s: Log, data: Data)
    requires LogOk(sc, s) && Conversation(sc, s, data).Some?
    ensures Extends(s, Conversation(sc, s, data).value) && LogOk(sc, Conversation(sc, s, data).value)
  {
    hide Has;
  }

  lemma {:induction false} PlayOk(sc: Scenario, events: seq<Event>)
    requires Play(sc, events).Some?
    ensures LogOk(sc, Play(sc, events).value)
    decreases |events|
  {
    hide Apply;
    if events != [] {
      PlayOk(sc, events[..|events| - 1]);
      ApplyExtends(sc, Play(sc, events[..|events| - 1]).value, events[|events| - 1]);
    }
  }

  /** Every prefix of an accepted transcript is accepted, and the log after it only grows from there. */
  lemma {:induction false} PlayExtends(sc: Scenario, events: seq<Event>, k: nat)
    requires Play(sc, events).Some? && k <= |events|
    ensures Play(sc, events[..k]).Some? && Extends(Play(sc, events[..k]).value, Play(sc, events).value)
    decreases |events|
  {
    hide Apply, Extends;
    if k == |events| {
      assert events[..k] == events;
      ExtendsSelf(Play(sc, events).value);
    } else {
      var most := events[..|events| - 1];
      PlayExtends(sc, most, k);
      assert most[..k] == events[..k];
      PlayOk(sc, most);
      ApplyExtends(sc, Play(sc, most).value, events[|events| - 1]);
      ExtendsTrans(Play(sc, events[..k]).value, Play(sc, most).value, Play(sc, events).value);
    }
  }

  lemma ExtendsSelf(s: Log)
    ensures Extends(s, s)
  {
  }

  /** The log before the event at a position. */
  function Before(sc: Scenario, events: seq<Event>, k: nat): Log
    requires Play(sc, events).Some? && k <= |events|
  {
    PlayExtends(sc, events, k);
    Play(sc, events[..k]).value
  }

  /** The step at a position, inside the whole. */
  lemma At(sc: Scenario, events: seq<Event>, k: nat)
    requires Play(sc, events).Some? && k < |events|
    ensures Apply(sc, Before(sc, events, k), events[k]) == Some(Before(sc, events, k + 1))
    ensures LogOk(sc, Before(sc, events, k)) && Extends(Before(sc, events, k), Before(sc, events, k + 1))
  {
    hide Apply, Extends, LogOk;
    var part := events[..k + 1];
    PlayExtends(sc, events, k + 1);
    assert part[..|part| - 1] == events[..k] && part[|part| - 1] == events[k];
    PlayExtends(sc, events, k);
    PlayOk(sc, events[..k]);
    ApplyExtends(sc, Before(sc, events, k), events[k]);
  }

  lemma Between(sc: Scenario, events: seq<Event>, i: nat, j: nat)
    requires Play(sc, events).Some? && i <= j <= |events|
    ensures Extends(Before(sc, events, i), Before(sc, events, j))
  {
    hide Apply, Extends;
    PlayExtends(sc, events, j);
    PlayExtends(sc, events[..j], i);
    assert events[..j][..i] == events[..i];
  }

  // ----- Turns and lineage -----

  /** The event at a position is a turn of this run, with this ordinal. */
  ghost predicate TurnAt(sc: Scenario, events: seq<Event>, k: nat, run: string, ordinal: int)
    requires Play(sc, events).Some? && k < |events|
  {
    var e := events[k];
    && e.kind == "turn" && TurnRun(Before(sc, events, k), e.data) == Some(run)
    && "ordinal" in e.data && e.data["ordinal"] == Int(ordinal)
  }

  lemma TurnFacts(sc: Scenario, events: seq<Event>, k: nat, run: string, ordinal: int)
    requires Play(sc, events).Some? && k < |events| && TurnAt(sc, events, k, run, ordinal)
    ensures run in Before(sc, events, k).runs && run in Before(sc, events, k + 1).runs
    ensures Before(sc, events, k).runs[run].latest < ordinal == Before(sc, events, k + 1).runs[run].latest
    ensures Before(sc, events, k).runs[run].history <= Before(sc, events, k).runs[run].latest
  {
    hide Before, Has;
    At(sc, events, k);
  }

  /** The turns of one run have strictly increasing ordinals, all past the history the run started from. */
  lemma OrdinalsIncrease(sc: Scenario, events: seq<Event>, i: nat, j: nat, run: string, m: int, n: int)
    requires Play(sc, events).Some? && i < j < |events|
    requires TurnAt(sc, events, i, run, m) && TurnAt(sc, events, j, run, n)
    ensures m < n
    ensures var log := Play(sc, events).value; run in log.runs && log.runs[run].history < m && n <= log.runs[run].latest
  {
    hide Before, TurnAt, Play;
    TurnFacts(sc, events, i, run, m);
    TurnFacts(sc, events, j, run, n);
    Between(sc, events, i + 1, j);
    Between(sc, events, j + 1, |events|);
    Between(sc, events, i, |events|);
    BeforeEnd(sc, events);
  }

  lemma BeforeEnd(sc: Scenario, events: seq<Event>)
    requires Play(sc, events).Some?
    ensures Before(sc, events, |events|) == Play(sc, events).value
  {
    assert events[..|events|] == events;
  }

  /** The event at a position starts this run. */
  ghost predicate RunAt(sc: Scenario, events: seq<Event>, k: nat, run: string, policy: string, history: int)
    requires Play(sc, events).Some? && k < |events|
  {
    var e := events[k];
    && e.kind == "run" && "runId" in e.data && e.data["runId"] == Text(run)
    && "contextPolicy" in e.data && e.data["contextPolicy"] == Text(policy)
    && "historyOrdinal" in e.data && e.data["historyOrdinal"] == Int(history)
  }

  ghost predicate ParentAt(events: seq<Event>, k: nat, parent: string)
    requires k < |events|
  {
    "parentRunId" in events[k].data && events[k].data["parentRunId"] == Text(parent)
  }

  lemma RunFacts(sc: Scenario, events: seq<Event>, k: nat, run: string, policy: string, history: int)
    requires Play(sc, events).Some? && k < |events| && RunAt(sc, events, k, run, policy, history)
    ensures run !in Before(sc, events, k).runs
    ensures Before(sc, events, k + 1).runs.Keys == Before(sc, events, k).runs.Keys + {run}
    ensures Before(sc, events, k + 1).runs[run].history == history == Before(sc, events, k + 1).runs[run].latest
    ensures policy == "preserve" || (policy == "clear" && history == 0)
    ensures forall q :: ParentAt(events, k, q) ==>
              q in Before(sc, events, k).runs
              && (policy == "preserve" ==> history == Before(sc, events, k).runs[q].latest)
  {
    hide Before, Has, OneOf;
    At(sc, events, k);
  }

  /** A run keeps the history it was started with. A cleared run has none. A preserving child starts where its parent
      then stood: past the parent's own history, and never past where the parent gets to in the end. */
  lemma Lineage(sc: Scenario, events: seq<Event>, k: nat, run: string, policy: string, history: int)
    requires Play(sc, events).Some? && k < |events| && RunAt(sc, events, k, run, policy, history)
    ensures var log := Play(sc, events).value;
            && run in log.runs && log.runs[run].history == history
            && (policy == "clear" ==> history == 0)
            && forall q :: ParentAt(events, k, q) ==>
                 && q != run && q in Before(sc, events, k).runs && q in log.runs
                 && (policy == "preserve" ==> log.runs[q].history <= history <= log.runs[q].latest)
  {
    hide Before, RunAt, Play, Apply;
    RunFacts(sc, events, k, run, policy, history);
    Between(sc, events, k, |events|);
    Between(sc, events, k + 1, |events|);
    BeforeEnd(sc, events);
    At(sc, events, k);
  }

  // ----- Plans, goals, attachments -----

  ghost predicate PlanAt(events: seq<Event>, k: nat, id: string, revision: int, digest: string)
    requires k < |events|
  {
    var e := events[k];
    && e.kind == "plan" && "planId" in e.data && e.data["planId"] == Text(id)
    && "revision" in e.data && e.data["revision"] == Int(revision)
    && "digest" in e.data && e.data["digest"] == Text(digest)
  }

  lemma PlanFacts(sc: Scenario, events: seq<Event>, k: nat, id: string, revision: int, digest: string)
    requires Play(sc, events).Some? && k < |events| && PlanAt(events, k, id, revision, digest)
    ensures var s, t := Before(sc, events, k), Before(sc, events, k + 1);
            id in t.plans && t.plans[id].revision == revision && t.plans[id].digest == digest
  {
    hide Before, Has, Sha256;
    At(sc, events, k);
  }

  /** A plan's revisions never go back, and a revision has one digest. */
  lemma PlanRevisionsExact(sc: Scenario, events: seq<Event>, i: nat, j: nat, id: string, m: int, n: int, d: string,
                           e: string)
    requires Play(sc, events).Some? && i < j < |events| && PlanAt(events, i, id, m, d) && PlanAt(events, j, id, n, e)
    ensures m <= n && (m == n ==> d == e)
  {
    hide Before, PlanAt, Play, Apply;
    PlanFacts(sc, events, i, id, m, d);
    PlanFacts(sc, events, j, id, n, e);
    Between(sc, events, i + 1, j + 1);
  }

  ghost predicate GoalAt(events: seq<Event>, k: nat, id: string, revision: int)
    requires k < |events|
  {
    var e := events[k];
    && e.kind == "activity" && "kind" in e.data && e.data["kind"] == Text("goal")
    && "goalId" in e.data && e.data["goalId"] == Text(id)
    && "revision" in e.data && e.data["revision"] == Int(revision)
  }

  lemma GoalFacts(sc: Scenario, events: seq<Event>, k: nat, id: string, revision: int)
    requires Play(sc, events).Some? && k < |events| && GoalAt(events, k, id, revision)
    ensures var s, t := Before(sc, events, k), Before(sc, events, k + 1);
            (id in s.goals ==> s.goals[id] < revision) && id in t.goals && t.goals[id] == revision
  {
    hide Before, Has;
    At(sc, events, k);
  }

  lemma GoalRevisionsAdvance(sc: Scenario, events: seq<Event>, i: nat, j: nat, id: string, m: int, n: int)
    requires Play(sc, events).Some? && i < j < |events| && GoalAt(events, i, id, m) && GoalAt(events, j, id, n)
    ensures m < n
  {
    hide Before, GoalAt, Play, Apply;
    GoalFacts(sc, events, i, id, m);
    GoalFacts(sc, events, j, id, n);
    Between(sc, events, i + 1, j);
  }

  ghost predicate AttachmentAt(events: seq<Event>, k: nat, item: Attachment)
    requires k < |events|
  {
    events[k].kind == "attachment" && AttachmentOf(events[k].data) == Some(item)
  }

  lemma AttachmentFacts(sc: Scenario, events: seq<Event>, k: nat, item: Attachment)
    requires Play(sc, events).Some? && k < |events| && AttachmentAt(events, k, item)
    ensures item !in Before(sc, events, k).attachments && item in Before(sc, events, k + 1).attachments
    ensures item in sc.manifest && events[k].data["turnId"].text in Before(sc, events, k).turns
  {
    hide Before, Has, AttachmentOf;
    At(sc, events, k);
  }

  /** Attachments are distinct and declared. */
  lemma AttachmentsDistinct(sc: Scenario, events: seq<Event>, i: nat, j: nat, item: Attachment, other: Attachment)
    requires Play(sc, events).Some? && i < j < |events|
    requires AttachmentAt(events, i, item) && AttachmentAt(events, j, other)
    ensures item != other && item in sc.manifest && other in sc.manifest
  {
    hide Before, AttachmentAt, Play, Apply;
    AttachmentFacts(sc, events, i, item);
    AttachmentFacts(sc, events, j, other);
    Between(sc, events, i + 1, j);
  }

  /** A turn known at a position was announced by an earlier turn event. */
  lemma {:induction false} TurnAnnounced(sc: Scenario, events: seq<Event>, k: nat, id: string)
    requires Play(sc, events).Some? && k <= |events| && id in Before(sc, events, k).turns
    ensures exists i :: 0 <= i < k && events[i].kind == "turn"
                        && "turnId" in events[i].data && events[i].data["turnId"] == Text(id)
    decreases k
  {
    hide Before, Has, Apply;
    if k == 0 {
      NothingBefore(sc, events);
    } else {
      At(sc, events, k - 1);
      if id in Before(sc, events, k - 1).turns {
        TurnAnnounced(sc, events, k - 1, id);
      } else {
        TurnFromEvent(sc, Before(sc, events, k - 1), events[k - 1], id);
      }
    }
  }

  lemma TurnFromEvent(sc: Scenario, s: Log, e: Event, id: string)
    requires Apply(sc, s, e).Some? && id in Apply(sc, s, e).value.turns && id !in s.turns
    ensures e.kind == "turn" && "turnId" in e.data && e.data["turnId"] == Text(id)
  {
    hide Sha256, OneOf;
  }

  lemma NothingBefore(sc: Scenario, events: seq<Event>)
    requires Play(sc, events).Some?
    ensures Before(sc, events, 0) == EMPTY
  {
  }

  /** There is at most one conversation event. */
  lemma OneConversation(sc: Scenario, events: seq<Event>, i: nat, j: nat)
    requires Play(sc, events).Some? && i < j < |events|
    ensures events[i].kind != "conversation" || events[j].kind != "conversation"
  {
    hide Before, Has, Play;
    At(sc, events, i);
    At(sc, events, j);
    Between(sc, events, i + 1, j);
  }

  // ----- The whole validation -----

  lemma {:induction false} PlayPrefixFails(sc: Scenario, events: seq<Event>, k: nat)
    requires k <= |events| && Play(sc, events[..k]).None?
    ensures Play(sc, events).None?
  {
    if Play(sc, events).Some? {
      PlayExtends(sc, events, k);
    }
  }

  /** Validation accepts exactly the transcripts whose every event applies. The closing check on attachments without a
      turn never rejects anything: an attachment is only accepted for a known turn. */
  method ValidateSemantics(provider: string, events: seq<Event>, manifest: seq<Attachment>) returns (ok: bool)
    ensures var sc := Scenario(provider, set a | a in manifest);
            ok <==> |sc.manifest| == |manifest| && Play(sc, events).Some?
  {
    hide Apply, LogOk;
    var sc := Scenario(provider, set a | a in manifest);
    if |sc.manifest| != |manifest| {
      return false;
    }
    var state := new State(sc);
    var i := 0;
    while i < |events|
      invariant 0 <= i <= |events| && state.scenario == sc
      invariant Play(sc, events[..i]) == Some(state.View())
    {
      assert events[..i + 1][..i] == events[..i] && events[..i + 1][i] == events[i];
      var applied := state.Handle(events[i]);
      if !applied {
        PlayPrefixFails(sc, events, i + 1);
        return false;
      }
      i := i + 1;
    }
    assert events[..i] == events;
    FinishAccepts(sc, events);
    ok := state.Finish();
  }

  /** In every state events can produce, attachments imply a turn. */
  lemma FinishAccepts(sc: Scenario, events: seq<Event>)
    requires Play(sc, events).Some?
    ensures Play(sc, events).value.attachments == {} || Play(sc, events).value.turns != {}
  {
    hide Apply;
    PlayOk(sc, events);
  }
}
