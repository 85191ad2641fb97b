/** The decision cascade of a task: evidence, verification, approval, shadow mode, execution. */
module DecisionCascade {
  import opened Prelude
  import opened MailRecords
  import Hashing

  datatype RiskTier = A0_Read | A1_Draft | A2_WriteApproved | A3_LowRiskAuto | A4_Irreversible

  datatype Task = Task(taskId: string, payload: string, taskType: string, riskTier: RiskTier, scope: TenantScope)

  datatype Decision = Escalated | ApprovalRequired | ShadowOnly | Executed | Recovered

  datatype TaskResult = TaskResult(decision: Decision, candidate: string)

  datatype Evidence = Evidence(sourceCount: nat, qualityScore: int, contradictionCount: nat)

  datatype EvidenceAnswer = Built(evidence: Evidence) | BuildFailed(message: string)

  datatype Candidate = Candidate(name: string, blockers: seq<string>, downsideRisk: int, score: int, margin: int)

  datatype FailureAction = Fail | Retry | Escalate

  /** Everything a run meets outside the code: connectors, planner, trace store, tool layer, record store. */
  datatype Surroundings = Surroundings(
    startedAt: int, finishedAt: int,
    scopeFails: Option<string>,
    firstEvidence: EvidenceAnswer, secondEvidence: EvidenceAnswer,
    planned: Result<Candidate, string>,
    shadowMode: bool,
    toolSucceeds: bool,
    traceFails: Option<string>,
    recordFails: Option<string>)

  predicate OccursAt(text: string, part: string, i: int) {
    0 <= i <= |text| - |part| && text[i..i + |part|] == part
  }

  predicate Contains(text: string, part: string) {
    exists i | 0 <= i <= |text| - |part| :: OccursAt(text, part, i)
  }

  /** The failure policy: the first expression that occurs in the message decides, letter case aside. */
  function HandleFailure(message: string): FailureAction {
    var m := Hashing.Lower(message);
    if Contains(m, "credential") then Fail
    else if Contains(m, "timeout") then Retry
    else if Contains(m, "malformed") || Contains(m, "invalid source") || Contains(m, "low-quality source") then Escalate
    else if Contains(m, "empty") || Contains(m, "no evidence") then Retry
    else if Contains(m, "contradiction") then Fail
    else Escalate
  }

  function RequiresApproval(tier: RiskTier, score: int, margin: int): bool {
    tier == A4_Irreversible || tier == A2_WriteApproved || (tier == A3_LowRiskAuto && (score < 85 || margin < 10))
  }

  // "No evidence sources available", "Evidence quality below threshold for write-capable task" and "Evidence
  // contradictions unresolved".
  const MISSING_COMPLAINT := "No evidence" + (" sources " + "available")
  const QUALITY_COMPLAINT := "Evidence quality " + ("below threshold " + ("for write-" + "capable task"))
  const CONTRADICTION_COMPLAINT := "Evidence " + ("contradictions " + "unresolved")

  function EvidenceComplaint(e: Evidence, tier: RiskTier): Option<string> {
    if tier == A0_Read then None
    else if e.sourceCount == 0 then Some(MISSING_COMPLAINT)
    else if e.qualityScore < 70 then Some(QUALITY_COMPLAINT)
    else if e.contradictionCount > 0 then Some(CONTRADICTION_COMPLAINT)
    else None
  }

  predicate VerificationPasses(task: Task, e: Evidence, c: Candidate) {
    && c.blockers == []
    && (e.qualityScore < 70 ==> task.riskTier == A0_Read)
    && e.contradictionCount == 0
    && (c.downsideRisk > 60 ==> task.riskTier == A0_Read)
  }

  predicate Acceptable(answer: EvidenceAnswer, tier: RiskTier) {
    answer.Built? && EvidenceComplaint(answer.evidence, tier).None?
  }

  function Complaint(answer: EvidenceAnswer, tier: RiskTier): string {
    match answer
    case BuildFailed(message) => message
    case Built(evidence) => EvidenceComplaint(evidence, tier).GetOr("")
  }

  method BuildOnce(answer: EvidenceAnswer, tier: RiskTier) returns (r: Result<Evidence, string>)
    ensures r.Ok? <==> Acceptable(answer, tier)
    ensures r.Ok? ==> r.value == answer.evidence
    ensures r.Err? ==> r.error == Complaint(answer, tier)
  {
    if answer.BuildFailed? { return Err(answer.message); }
    var complaint := EvidenceComplaint(answer.evidence, tier);
    if complaint.Some? { return Err(complaint.value); }
    return Ok(answer.evidence);
  }

  // ---- What the cascade is held to ----

  /** Evidence of the quality its tier asks for; reading asks for none. */
  predicate Sufficient(e: Evidence, tier: RiskTier) {
    tier == A0_Read || (e.sourceCount > 0 && e.qualityScore >= 70 && e.contradictionCount == 0)
  }

  predicate Delivers(answer: EvidenceAnswer, tier: RiskTier, e: Evidence) {
    answer == Built(e) && Sufficient(e, tier)
  }

  /** The words occur somewhere in the text, letter case aside. */
  ghost predicate Mentions(text: string, words: string) {
    exists i :: MentionedAt(text, words, i)
  }

  predicate MentionedAt(text: string, words: string, i: int) {
    0 <= i <= |text| - |words| && Hashing.SameText(text[i..i + |words|], words)
  }

  /** A build that found no sources; or one that threw a timeout or spoke of missing evidence, unless a
      credential, or for the latter a bad source, is mentioned too. */
  ghost predicate WorthRetrying(answer: EvidenceAnswer, tier: RiskTier) {
    match answer
    case Built(e) => tier != A0_Read && e.sourceCount == 0
    case BuildFailed(text) =>
      && !Mentions(text, "credential")
      && (|| Mentions(text, "timeout")
          || (&& (Mentions(text, "empty") || Mentions(text, "no evidence"))
              && !Mentions(text, "malformed") && !Mentions(text, "invalid source")
              && !Mentions(text, "low-quality source")))
  }

  /** The evidence a run works on: that of the first build, or, when that is worth retrying, of the second. */
  ghost predicate Used(task: Task, env: Surroundings, e: Evidence) {
    || Delivers(env.firstEvidence, task.riskTier, e)
    || (WorthRetrying(env.firstEvidence, task.riskTier) && Delivers(env.secondEvidence, task.riskTier, e))
  }

  /** The candidate may go ahead on this evidence. */
  predicate Passes(task: Task, e: Evidence, c: Candidate) {
    && c.blockers == [] && e.contradictionCount == 0
    && (task.riskTier == A0_Read || (e.qualityScore >= 70 && c.downsideRisk <= 60))
  }

  /** A person has to agree: always for approved writes and the irreversible, and for automatic low-risk work
      unless score and margin are both high. */
  predicate NeedsPerson(task: Task, c: Candidate) {
    match task.riskTier
    case A2_WriteApproved => true
    case A4_Irreversible => true
    case A3_LowRiskAuto => !(c.score >= 85 && c.margin >= 10)
    case _ => false
  }

  /** The decision the evidence and the top candidate call for. */
  ghost predicate Warranted(task: Task, env: Surroundings, e: Evidence, d: Decision) {
    && env.planned.Ok?
    && var goes, alone := Passes(task, e, env.planned.value), !NeedsPerson(task, env.planned.value);
    && (d == Escalated <==> !goes)
    && (d == ApprovalRequired <==> goes && !alone)
    && (d == ShadowOnly <==> goes && alone && env.shadowMode)
    && (d == Executed <==> goes && alone && !env.shadowMode && env.toolSucceeds)
    && (d == Recovered <==> goes && alone && !env.shadowMode && !env.toolSucceeds)
  }

  /** What stands behind every execution. */
  ghost predicate Cleared(task: Task, env: Surroundings) {
    && !env.shadowMode && env.planned.Ok? && !NeedsPerson(task, env.planned.value)
    && exists e :: Used(task, env, e) && Passes(task, e, env.planned.value)
  }

  /** What the evidence check says of a build. */
  predicate Complains(answer: EvidenceAnswer, tier: RiskTier, text: string) {
    match answer
    case BuildFailed(message) => text == message
    case Built(e) =>
      && tier != A0_Read
      && text == (if e.sourceCount == 0 then MISSING_COMPLAINT
                  else if e.qualityScore < 70 then QUALITY_COMPLAINT
                  else CONTRADICTION_COMPLAINT)
  }

  /** The text a failing run ends with: that of the first service to fail. */
  ghost predicate FailsWith(task: Task, env: Surroundings, text: string) {
    if env.scopeFails.Some? then text == env.scopeFails.value
    else if forall e :: !Used(task, env, e) then
      Complains(if WorthRetrying(env.firstEvidence, task.riskTier) then env.secondEvidence else env.firstEvidence,
                task.riskTier, text)
    else if env.planned.Err? then text == env.planned.error
    else env.traceFails == Some(text)
  }

  // ---- The text expressions of the failure policy ----

  lemma ContainsIff(text: string, words: string)
    requires Hashing.Lower(words) == words
    ensures Contains(Hashing.Lower(text), words) <==> Mentions(text, words)
  {
    var m := Hashing.Lower(text);
    forall i ensures OccursAt(m, words, i) <==> MentionedAt(text, words, i) {
      if 0 <= i <= |text| - |words| {
        assert m[i..i + |words|] == Hashing.Lower(text[i..i + |words|]);
        Hashing.LowerForgets(text[i..i + |words|], words);
      }
    }
  }

  lemma PolicyWords()
    ensures Hashing.Lower("credential") == "credential" && Hashing.Lower("timeout") == "timeout"
    ensures Hashing.Lower("malformed") == "malformed" && Hashing.Lower("invalid source") == "invalid source"
    ensures Hashing.Lower("low-quality source") == "low-quality source"
    ensures Hashing.Lower("empty") == "empty" && Hashing.Lower("no evidence") == "no evidence"
  {
  }

  lemma FailureRetriedIff(text: string)
    ensures HandleFailure(text) == Retry <==> WorthRetrying(BuildFailed(text), A1_Draft)
  {
    PolicyWords();
    ContainsIff(text, "credential");
    ContainsIff(text, "timeout");
    ContainsIff(text, "malformed");
    ContainsIff(text, "invalid source");
    ContainsIff(text, "low-quality source");
    ContainsIff(text, "empty");
    ContainsIff(text, "no evidence");
  }

  /** Of the three complaints about built evidence only the missing sources are worth a second build. */
  lemma ComplaintsRetriedIff()
    ensures HandleFailure(MISSING_COMPLAINT) == Retry
    ensures HandleFailure(QUALITY_COMPLAINT) != Retry
    ensures HandleFailure(CONTRADICTION_COMPLAINT) != Retry
  {
    MissingRetried();
    QualityNotRetried();
    ContradictionsNotRetried();
  }

  lemma MissingRetried()
    ensures HandleFailure(MISSING_COMPLAINT) == Retry
  {
    StartBlamesNobody();
    SourcesBlameNobody();
    AvailableBlamesNobody();
    BlamesBoth(" sources ", "available");
    BlamesBoth("No evidence", " sources " + "available");
    StartRetried(" sources " + "available");
  }

  /** No letter that credentials, timeouts, malformed and low-quality sources need, and no "in" for invalid ones. */
  predicate BlamesNobody(text: string) {
    && 't' !in text && 'T' !in text && 'm' !in text && 'M' !in text && 'w' !in text && 'W' !in text
    && forall i | 0 <= i < |text| - 1 :: text[i] in {'i', 'I'} ==> text[i + 1] !in {'n', 'N'}
  }

  lemma StartBlamesNobody()
    ensures BlamesNobody("No evidence")
  {
  }

  lemma SourcesBlameNobody()
    ensures BlamesNobody(" sources ")
  {
  }

  lemma AvailableBlamesNobody()
    ensures BlamesNobody("available")
  {
  }

  lemma BlamesBoth(a: string, b: string)
    requires BlamesNobody(a) && BlamesNobody(b) && a != "" && a[|a| - 1] !in {'i', 'I'}
    ensures BlamesNobody(a + b)
  {
    var text := a + b;
    forall i | 0 <= i < |text| - 1 && text[i] in {'i', 'I'} ensures text[i + 1] !in {'n', 'N'} {
      if i < |a| - 1 { assert a[i] == text[i] && a[i + 1] == text[i + 1]; }
      if i >= |a| { assert b[i - |a|] == text[i] && b[i - |a| + 1] == text[i + 1]; }
    }
  }

  lemma StartRetried(rest: string)
    requires BlamesNobody("No evidence" + rest)
    ensures HandleFailure("No evidence" + rest) == Retry
  {
    var text := "No evidence" + rest;
    var m := Hashing.Lower(text);
    forall i | 0 <= i < |m| ensures m[i] != 't' && m[i] != 'm' && m[i] != 'w' { assert text[i] in text; }
    NoLetter(m, "credential", 6);
    NoLetter(m, "timeout", 0);
    NoLetter(m, "malformed", 0);
    NoLetter(m, "low-quality source", 2);
    NoPairOf(m, "invalid source");
    assert text[..|"No evidence"|] == "No evidence";
    assert m[..|"no evidence"|] == "no evidence";
    assert OccursAt(m, "no evidence", 0);
  }

  /** Without an m there is no timeout and nothing empty, and without "no" no missing evidence. */
  predicate Harmless(text: string) {
    && 'm' !in text && 'M' !in text
    && forall i | 0 <= i < |text| - 1 :: text[i] in {'n', 'N'} ==> text[i + 1] !in {'o', 'O'}
  }

  lemma NotRetried(text: string)
    requires Harmless(text)
    ensures HandleFailure(text) != Retry
  {
    var m := Hashing.Lower(text);
    forall i | 0 <= i < |m| ensures m[i] != 'm' { assert text[i] in text; }
    NoLetter(m, "timeout", 2);
    NoLetter(m, "empty", 1);
    NoPairOf(m, "no evidence");
  }

  lemma HarmlessBoth(a: string, b: string)
    requires Harmless(a) && Harmless(b) && a != "" && a[|a| - 1] !in {'n', 'N'}
    ensures Harmless(a + b)
  {
    var text := a + b;
    forall i | 0 <= i < |text| - 1 && text[i] in {'n', 'N'} ensures text[i + 1] !in {'o', 'O'} {
      if i < |a| - 1 { assert a[i] == text[i] && a[i + 1] == text[i + 1]; }
      if i >= |a| { assert b[i - |a|] == text[i] && b[i - |a| + 1] == text[i + 1]; }
    }
  }

  lemma QualityNotRetried()
    ensures HandleFailure(QUALITY_COMPLAINT) != Retry
  {
    HarmlessStart();
    HarmlessEnd();
    HarmlessBoth("for write-", "capable task");
    HarmlessBoth("below threshold ", "for write-" + "capable task");
    HarmlessBoth("Evidence quality ", "below threshold " + ("for write-" + "capable task"));
    NotRetried(QUALITY_COMPLAINT);
  }

  lemma HarmlessStart()
    ensures Harmless("Evidence quality ") && Harmless("below threshold ")
  {
  }

  lemma HarmlessEnd()
    ensures Harmless("for write-") && Harmless("capable task")
  {
  }

  lemma ContradictionsNotRetried()
    ensures HandleFailure(CONTRADICTION_COMPLAINT) != Retry
  {
    HarmlessContradictions();
    HarmlessBoth("contradictions ", "unresolved");
    HarmlessBoth("Evidence ", "contradictions " + "unresolved");
    NotRetried(CONTRADICTION_COMPLAINT);
  }

  lemma HarmlessContradictions()
    ensures Harmless("Evidence ") && Harmless("contradictions ") && Harmless("unresolved")
  {
  }

  /** A text in which the first two letters of an expression never stand together. */
  lemma NoPairOf(m: string, part: string)
    requires |part| >= 2 && forall i | 0 <= i < |m| - 1 :: m[i] == part[0] ==> m[i + 1] != part[1]
    ensures !Contains(m, part)
  {
    forall i ensures !OccursAt(m, part, i) {
      if 0 <= i <= |m| - |part| {
        assert m[i..i + |part|][0] == m[i] && m[i..i + |part|][1] == m[i + 1];
      }
    }
  }

  lemma RetriedIff(answer: EvidenceAnswer, tier: RiskTier)
    requires !Acceptable(answer, tier)
    ensures HandleFailure(Complaint(answer, tier)) == Retry <==> WorthRetrying(answer, tier)
  {
    match answer
    case BuildFailed(text) => FailureRetriedIff(text);
    case Built(_) => ComplaintsRetriedIff();
  }

  lemma AcceptableIff(answer: EvidenceAnswer, tier: RiskTier)
    ensures Acceptable(answer, tier) <==> answer.Built? && Sufficient(answer.evidence, tier)
    ensures !Acceptable(answer, tier) ==> Complains(answer, tier, Complaint(answer, tier))
  {
  }

  // ---- The cascade ----

  function BuiltOnce(answer: EvidenceAnswer, tier: RiskTier): Result<Evidence, string> {
    if Acceptable(answer, tier) then Ok(answer.evidence) else Err(Complaint(answer, tier))
  }

  function EvidenceFor(task: Task, env: Surroundings): Result<Evidence, string> {
    var first := BuiltOnce(env.firstEvidence, task.riskTier);
    if first.Err? && HandleFailure(first.error) == Retry then BuiltOnce(env.secondEvidence, task.riskTier) else first
  }

  /** A text without some letter of an expression does not contain it. */
  lemma NoLetter(m: string, part: string, k: nat)
    requires k < |part| && part[k] !in m
    ensures !Contains(m, part)
  {
    forall i ensures !OccursAt(m, part, i) {
      if 0 <= i <= |m| - |part| {
        assert m[i + k] in m;
        assert m[i..i + |part|][k] == m[i + k];
      }
    }
  }

  /** The two builds deliver exactly the evidence used, or the complaint about the build that counted. */
  lemma EvidenceForMeans(task: Task, env: Surroundings)
    ensures var r := EvidenceFor(task, env);
      && (r.Ok? ==> Used(task, env, r.value)) && (r.Ok? <==> exists e :: Used(task, env, e))
      && (forall e | Used(task, env, e) :: r == Ok(e))
      && (r.Err? ==>
           Complains(if WorthRetrying(env.firstEvidence, task.riskTier) then env.secondEvidence else env.firstEvidence,
                     task.riskTier, r.error))
  {
    AcceptableIff(env.firstEvidence, task.riskTier);
    AcceptableIff(env.secondEvidence, task.riskTier);
    if !Acceptable(env.firstEvidence, task.riskTier) { RetriedIff(env.firstEvidence, task.riskTier); }
    if EvidenceFor(task, env).Ok? { assert Used(task, env, EvidenceFor(task, env).value); }
  }

  method BuildEvidenceWithPolicy(task: Task, env: Surroundings) returns (r: Result<Evidence, string>)
    ensures r == EvidenceFor(task, env)
    ensures r.Ok? ==> Used(task, env, r.value)
    ensures r.Err? ==> forall e :: !Used(task, env, e)
    ensures r.Err? ==>
      Complains(if WorthRetrying(env.firstEvidence, task.riskTier) then env.secondEvidence else env.firstEvidence,
                task.riskTier, r.error)
  {
    EvidenceForMeans(task, env);
    r := BuildOnce(env.firstEvidence, task.riskTier);
    if r.Err? && HandleFailure(r.error) == Retry {
      r := BuildOnce(env.secondEvidence, task.riskTier);
    }
  }

  /** No service the cascade depends on fails. */
  ghost predicate Succeeds(task: Task, env: Surroundings) {
    env.scopeFails.None? && (exists e :: Used(task, env, e)) && env.planned.Ok? && env.traceFails.None?
  }

  function Decided(task: Task, env: Surroundings): (Result<TaskResult, string>, bool) {
    var evidence := EvidenceFor(task, env);
    if env.scopeFails.Some? then (Err(env.scopeFails.value), false)
    else if evidence.Err? then (Err(evidence.error), false)
    else if env.planned.Err? then (Err(env.planned.error), false)
    else
      var top := env.planned.value;
      var passes := VerificationPasses(task, evidence.value, top);
      var decision :=
        if !passes then Escalated
        else if RequiresApproval(task.riskTier, top.score, top.margin) then ApprovalRequired
        else if env.shadowMode then ShadowOnly
        else if env.toolSucceeds then Executed else Recovered;
      (if env.traceFails.Some? then Err(env.traceFails.value)
          else Ok(TaskResult(decision, top.name)), decision in {Executed, Recovered})
  }

  /** The cascade ends well exactly when no service fails, and then with the decision its evidence and top
      candidate call for, otherwise with the text of the first failure; it executes only what is cleared. */
  lemma DecidedMeans(task: Task, env: Surroundings)
    ensures var (r, executed) := Decided(task, env);
      && (r.Ok? <==> Succeeds(task, env))
      && (r.Ok? ==> exists e :: Used(task, env, e) && Warranted(task, env, e, r.value.decision))
      && (r.Ok? ==>
           && (executed <==> r.value.decision in {Executed, Recovered})
           && r.value.candidate == env.planned.value.name)
      && (r.Err? ==> FailsWith(task, env, r.error)) && (executed ==> Cleared(task, env))
  {
    EvidenceForMeans(task, env);
  }

  /** The body of the try block up to the value to be recorded: the decision cascade. */
  method RunCascade(task: Task, env: Surroundings) returns (r: Result<TaskResult, string>, executed: bool)
    ensures (r, executed) == Decided(task, env)
    ensures r.Ok? <==> Succeeds(task, env)
    ensures r.Ok? ==> exists e :: Used(task, env, e) && Warranted(task, env, e, r.value.decision)
    ensures r.Ok? ==>
      && (executed <==> r.value.decision in {Executed, Recovered})
      && r.value.candidate == env.planned.value.name
    ensures r.Err? ==> FailsWith(task, env, r.error)
    ensures executed ==> Cleared(task, env)
  {
    executed := false;
    if env.scopeFails.Some? { return Err(env.scopeFails.value), false; }
    DecidedMeans(task, env);
    var evidence := BuildEvidenceWithPolicy(task, env);
    if evidence.Err? { return Err(evidence.error), false; }
    if env.planned.Err? { return Err(env.planned.error), false; }
    var top := env.planned.value;
    if !VerificationPasses(task, evidence.value, top) {
      if env.traceFails.Some? { return Err(env.traceFails.value), false; }
      return Ok(TaskResult(Escalated, top.name)), false;
    }
    if RequiresApproval(task.riskTier, top.score, top.margin) {
      if env.traceFails.Some? { return Err(env.traceFails.value), false; }
      return Ok(TaskResult(ApprovalRequired, top.name)), false;
    }
    if env.shadowMode {
      if env.traceFails.Some? { return Err(env.traceFails.value), false; }
      return Ok(TaskResult(ShadowOnly, top.name)), false;
    }
    executed := true;
    var postconditionsMet := env.toolSucceeds;
    if env.traceFails.Some? { return Err(env.traceFails.value), true; }
    if !postconditionsMet { return Ok(TaskResult(Recovered, top.name)), true; }
    return Ok(TaskResult(Executed, top.name)), true;
  }
}
