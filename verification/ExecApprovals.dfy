/**
 * Exec tasks and their approvals, one whole transaction at a time.
 *
 * `Apply` gives the committed state after each transaction (a raise rolls
 * everything back except the consumed row ids).  The lemmas show, over every
 * run: approval and task move in lockstep, and no task starts unlicensed.
 */
module ExecApprovals {
  import opened Wrappers
  import opened AutoPolicy
  import ExecCas
  type Status = ExecCas.Status

  datatype Biz = Exec | Terminal | Workflow | Other(name: string)

  datatype Decision = Pending | Approved | Rejected | Canceled

  datatype Mode = Manual | ByPolicy(policy: nat)

  datatype Task = Task(status: Status, version: nat, approval: Option<nat>)

  datatype Approval = Approval(biz: Biz, bizId: nat, status: Decision, version: nat, mode: Mode)

  datatype State = State(
    tasks: map<nat, Task>, approvals: map<nat, Approval>,
    nextTask: nat, nextApproval: nat, cfg: Config)

  datatype Tx =
    | Create(sensitive: bool, remediation: Option<Remediation>)
    | Raise(biz: Biz, bizId: nat)
    | Approve(a: nat)
    | Reject(a: nat)
    | Withdraw(a: nat)
    | CancelTask(t: nat)
    | Stop(t: nat)
    | Retry(t: nat, sensitive: bool)
    | Finish(t: nat, to: Status)
    | PutLevel(level: Level)
    | SetFeature(on: bool)
    | SetPolicies(policies: seq<Policy>)
    | SetWhitelist(whitelist: seq<Whitelisted>)
    | Verified(ok: bool, threshold: int)

  datatype Error = NotFound | Conflict | BadRequest | Integrity

  // ------------------------------------------------------------ the tables

  /** The unique index over all approvals, whatever their domain. */
  predicate BizIdTaken(approvals: map<nat, Approval>, bizId: nat) {
    exists a :: a in approvals && approvals[a].bizId == bizId
  }

  function SetStatus(tasks: map<nat, Task>, t: nat, to: Status): map<nat, Task>
    requires t in tasks
  {
    tasks[t := tasks[t].(status := to, version := tasks[t].version + 1)]
  }

  function Decide(approvals: map<nat, Approval>, a: nat, to: Decision): map<nat, Approval>
    requires a in approvals
  {
    approvals[a := approvals[a].(status := to, version := approvals[a].version + 1)]
  }

  /** A still-pending approval of the task is canceled with it. */
  function CloseOrphan(approvals: map<nat, Approval>, link: Option<nat>): map<nat, Approval> {
    if link.Some? && link.value in approvals && approvals[link.value].status.Pending?
    then Decide(approvals, link.value, Canceled)
    else approvals
  }

  predicate Decidable(s: State, a: nat) {
    a in s.approvals && s.approvals[a].status.Pending? && !s.approvals[a].biz.Other?
  }

  predicate TaskAwaits(s: State, t: nat) { t in s.tasks && s.tasks[t].status.AwaitingApproval? }

  // ------------------------------------------------------------ transactions

  function Gated(s: State, t: nat, status: Status, version: nat, approval: Approval): State {
    s.(tasks := s.tasks[t := Task(status, version, Some(s.nextApproval))],
       approvals := s.approvals[s.nextApproval := approval],
       nextApproval := s.nextApproval + 1)
  }

  function ApplyCreate(s: State, sensitive: bool, rem: Option<Remediation>): State {
    var t := s.nextTask;
    var used := s.(nextTask := t + 1);
    if !sensitive then used.(tasks := s.tasks[t := Task(ExecCas.Running, 1, None)])
    else if BizIdTaken(s.approvals, t) then used.(nextApproval := s.nextApproval + 1)
    else
      var hit := ResolveAuto(s.cfg, rem);
      if hit.Some? then
        Gated(used, t, ExecCas.Running, 2, Approval(Exec, t, Approved, 0, ByPolicy(hit.value)))
      else
        Gated(used, t, ExecCas.AwaitingApproval, 1, Approval(Exec, t, Pending, 0, Manual))
  }

  function ApplyRaise(s: State, biz: Biz, bizId: nat): State {
    var used := s.(nextApproval := s.nextApproval + 1);
    if biz.Exec? || BizIdTaken(s.approvals, bizId) then used
    else used.(approvals := s.approvals[s.nextApproval := Approval(biz, bizId, Pending, 0, Manual)])
  }

  function ApplyApprove(s: State, a: nat): State {
    if !Decidable(s, a) then s
    else if !s.approvals[a].biz.Exec? then s.(approvals := Decide(s.approvals, a, Approved))
    else if !TaskAwaits(s, s.approvals[a].bizId) then s
    else s.(approvals := Decide(s.approvals, a, Approved),
            tasks := SetStatus(s.tasks, s.approvals[a].bizId, ExecCas.Running))
  }

  /** Reject and withdraw differ only in the decision they record. */
  function ApplyRefuse(s: State, a: nat, decision: Decision): State {
    if !Decidable(s, a) then s
    else
      var bizId := s.approvals[a].bizId;
      s.(approvals := Decide(s.approvals, a, decision),
         tasks := if s.approvals[a].biz.Exec? && TaskAwaits(s, bizId)
                  then SetStatus(s.tasks, bizId, ExecCas.Canceled) else s.tasks)
  }

  function ApplyCancel(s: State, t: nat): State {
    if t !in s.tasks || !ExecCas.Cancellable(s.tasks[t].status) then s
    else s.(tasks := SetStatus(s.tasks, t, ExecCas.Canceled),
            approvals := CloseOrphan(s.approvals, s.tasks[t].approval))
  }

  predicate Stoppable(s: State, t: nat) {
    t in s.tasks && (s.tasks[t].status.Running? || s.tasks[t].status.Pending?)
  }

  predicate RetryAllowed(s: State, t: nat) { t in s.tasks && ExecCas.Retryable(s.tasks[t].status) }

  function ApplyRetry(s: State, t: nat, sensitive: bool): State {
    if !RetryAllowed(s, t) then s
    else
      var closed := CloseOrphan(s.approvals, s.tasks[t].approval);
      if !sensitive then
        s.(tasks := SetStatus(s.tasks, t, ExecCas.Running), approvals := closed)
      else if BizIdTaken(s.approvals, t) then s.(nextApproval := s.nextApproval + 1)
      else Gated(s.(approvals := closed), t, ExecCas.AwaitingApproval, s.tasks[t].version + 1,
                 Approval(Exec, t, Pending, 0, Manual))
  }

  predicate Finishes(s: State, t: nat, to: Status) {
    t in s.tasks && s.tasks[t].status.Running? && (to.Success? || to.Partial? || to.Failed? || to.TimedOut?)
  }

  function Apply(s: State, tx: Tx): State {
    match tx
    case Create(sensitive, rem) => ApplyCreate(s, sensitive, rem)
    case Raise(biz, bizId) => ApplyRaise(s, biz, bizId)
    case Approve(a) => ApplyApprove(s, a)
    case Reject(a) => ApplyRefuse(s, a, Rejected)
    case Withdraw(a) => ApplyRefuse(s, a, Canceled)
    case CancelTask(t) => ApplyCancel(s, t)
    case Stop(t) => if Stoppable(s, t) then ApplyCancel(s, t) else s
    case Retry(t, sensitive) => ApplyRetry(s, t, sensitive)
    case Finish(t, to) => if Finishes(s, t, to) then s.(tasks := SetStatus(s.tasks, t, to)) else s
    case PutLevel(l) =>
      if LevelAccepted(s.cfg.policies, l) then s.(cfg := s.cfg.(levels := WithLevel(s.cfg.levels, l))) else s
    case SetFeature(on) => s.(cfg := s.cfg.(feature := on))
    case SetPolicies(ps) => s.(cfg := s.cfg.(policies := ps))
    case SetWhitelist(wl) => s.(cfg := s.cfg.(whitelist := wl))
    case Verified(ok, threshold) =>
      var b := if s.cfg.breaker.Some? then s.cfg.breaker.value else Breaker(Closed, 0);
      s.(cfg := s.cfg.(breaker := Some(Record(b, ok, threshold))))
  }

  function Run(s: State, txs: seq<Tx>): State
    decreases |txs|
  {
    if txs == [] then s else Apply(Run(s, txs[..|txs| - 1]), txs[|txs| - 1])
  }

  // ------------------------------------------------------------ lockstep

  /** The exec approval is pending exactly when its task awaits and points back. */
  ghost predicate InStep(s: State, a: nat)
    requires a in s.approvals
  {
    var t := s.approvals[a].bizId;
    s.approvals[a].biz.Exec? ==>
      t in s.tasks &&
      (s.approvals[a].status.Pending? <==>
         s.tasks[t].status.AwaitingApproval? && s.tasks[t].approval == Some(a))
  }

  /** The task's link, when set, is an exec approval of that task; an awaiting task has one. */
  ghost predicate PointsBack(s: State, t: nat)
    requires t in s.tasks
  {
    var link := s.tasks[t].approval;
    (s.tasks[t].status.AwaitingApproval? ==> link.Some?) &&
    (link.Some? ==> link.value in s.approvals && s.approvals[link.value].biz.Exec? &&
                    s.approvals[link.value].bizId == t)
  }

  ghost predicate Lockstep(s: State) {
    && (forall a :: a in s.approvals ==> InStep(s, a))
    && (forall t :: t in s.tasks ==> PointsBack(s, t))
  }

  ghost predicate Numbered(s: State) {
    && (forall a :: a in s.approvals ==> a < s.nextApproval)
    && (forall t :: t in s.tasks ==> t < s.nextTask)
  }

  ghost predicate BizIdsUnique(s: State) {
    forall a, b :: a in s.approvals && b in s.approvals && s.approvals[a].bizId == s.approvals[b].bizId ==> a == b
  }

  ghost predicate Inv(s: State) {
    Lockstep(s) && Numbered(s) && BizIdsUnique(s) &&
    LevelsUnique(s.cfg.levels) && AtMostOneEnabled(s.cfg.levels)
  }

  lemma CreateKeeps(s: State, sensitive: bool, rem: Option<Remediation>)
    requires Inv(s)
    ensures Inv(ApplyCreate(s, sensitive, rem))
  {
    CreateKeepsLockstep(s, sensitive, rem);
  }

  lemma CreateKeepsLockstep(s: State, sensitive: bool, rem: Option<Remediation>)
    requires Lockstep(s) && Numbered(s)
    ensures Lockstep(ApplyCreate(s, sensitive, rem))
  {
    var after := ApplyCreate(s, sensitive, rem);
    forall a | a in after.approvals ensures InStep(after, a) {
      if a in s.approvals { assert InStep(s, a); }
    }
    forall t | t in after.tasks ensures PointsBack(after, t) {
      if t in s.tasks { assert PointsBack(s, t); }
    }
  }

  lemma RaiseKeeps(s: State, biz: Biz, bizId: nat)
    requires Inv(s)
    ensures Inv(ApplyRaise(s, biz, bizId))
  {
    var after := ApplyRaise(s, biz, bizId);
    forall a | a in after.approvals ensures InStep(after, a) {
      if a in s.approvals { assert InStep(s, a); }
    }
    forall t | t in after.tasks ensures PointsBack(after, t) { assert PointsBack(s, t); }
  }

  /** Moving a decided approval and its task together keeps everything in step. */
  lemma PairKeeps(s: State, a: nat, to: Decision, status: Status)
    requires Inv(s) && a in s.approvals && s.approvals[a].status.Pending?
    requires !to.Pending? && !status.AwaitingApproval?
    requires s.approvals[a].biz.Exec?
    ensures s.approvals[a].bizId in s.tasks && TaskAwaits(s, s.approvals[a].bizId)
    ensures Inv(s.(approvals := Decide(s.approvals, a, to),
                   tasks := SetStatus(s.tasks, s.approvals[a].bizId, status)))
  {
    assert InStep(s, a);
    var t := s.approvals[a].bizId;
    var after := s.(approvals := Decide(s.approvals, a, to), tasks := SetStatus(s.tasks, t, status));
    forall b | b in after.approvals ensures InStep(after, b) { assert InStep(s, b); }
    forall u | u in after.tasks ensures PointsBack(after, u) { assert PointsBack(s, u); }
  }

  lemma ForeignKeeps(s: State, a: nat, to: Decision)
    requires Inv(s) && a in s.approvals && !s.approvals[a].biz.Exec?
    ensures Inv(s.(approvals := Decide(s.approvals, a, to)))
  {
    var after := s.(approvals := Decide(s.approvals, a, to));
    forall b | b in after.approvals ensures InStep(after, b) { assert InStep(s, b); }
    forall u | u in after.tasks ensures PointsBack(after, u) { assert PointsBack(s, u); }
  }

  lemma DecisionKeeps(s: State, a: nat)
    requires Inv(s)
    ensures Inv(ApplyApprove(s, a)) && Inv(ApplyRefuse(s, a, Rejected)) && Inv(ApplyRefuse(s, a, Canceled))
  {
    if Decidable(s, a) {
      if s.approvals[a].biz.Exec? {
        PairKeeps(s, a, Approved, ExecCas.Running);
        PairKeeps(s, a, Rejected, ExecCas.Canceled);
        PairKeeps(s, a, Canceled, ExecCas.Canceled);
      } else {
        ForeignKeeps(s, a, Approved);
        ForeignKeeps(s, a, Rejected);
        ForeignKeeps(s, a, Canceled);
      }
    }
  }

  /** Moving a task that does not await, to a status that does not await. */
  lemma TaskAloneKeeps(s: State, t: nat, status: Status)
    requires Inv(s) && t in s.tasks && !s.tasks[t].status.AwaitingApproval? && !status.AwaitingApproval?
    ensures Inv(s.(tasks := SetStatus(s.tasks, t, status)))
    ensures CloseOrphan(s.approvals, s.tasks[t].approval) == s.approvals
  {
    var after := s.(tasks := SetStatus(s.tasks, t, status));
    forall b | b in after.approvals ensures InStep(after, b) { assert InStep(s, b); }
    forall u | u in after.tasks ensures PointsBack(after, u) { assert PointsBack(s, u); }
    assert PointsBack(s, t);
    if s.tasks[t].approval.Some? { assert InStep(s, s.tasks[t].approval.value); }
  }

  lemma CancelKeeps(s: State, t: nat)
    requires Inv(s)
    ensures Inv(ApplyCancel(s, t))
  {
    if t in s.tasks && ExecCas.Cancellable(s.tasks[t].status) {
      assert PointsBack(s, t);
      if s.tasks[t].status.AwaitingApproval? {
        var a := s.tasks[t].approval.value;
        assert InStep(s, a);
        PairKeeps(s, a, Canceled, ExecCas.Canceled);
      } else {
        TaskAloneKeeps(s, t, ExecCas.Canceled);
      }
    }
  }

  lemma RetryKeeps(s: State, t: nat, sensitive: bool)
    requires Inv(s)
    ensures Inv(ApplyRetry(s, t, sensitive))
  {
    if RetryAllowed(s, t) {
      TaskAloneKeeps(s, t, ExecCas.Running);
      if sensitive {
        var after := ApplyRetry(s, t, sensitive);
        forall a | a in after.approvals ensures InStep(after, a) {
          if a in s.approvals { assert InStep(s, a); }
        }
        forall u | u in after.tasks ensures PointsBack(after, u) { assert PointsBack(s, u); }
      }
    }
  }

  lemma ConfigKeeps(s: State, cfg: Config)
    requires Inv(s) && LevelsUnique(cfg.levels) && AtMostOneEnabled(cfg.levels)
    ensures Inv(s.(cfg := cfg))
  {
    var after := s.(cfg := cfg);
    forall a | a in after.approvals ensures InStep(after, a) { assert InStep(s, a); }
    forall u | u in after.tasks ensures PointsBack(after, u) { assert PointsBack(s, u); }
  }

  lemma StepKeepsInv(s: State, tx: Tx)
    requires Inv(s)
    ensures Inv(Apply(s, tx))
  {
    match tx
    case Create(sensitive, rem) => CreateKeeps(s, sensitive, rem);
    case Raise(biz, bizId) => RaiseKeeps(s, biz, bizId);
    case Approve(a) => DecisionKeeps(s, a);
    case Reject(a) => DecisionKeeps(s, a);
    case Withdraw(a) => DecisionKeeps(s, a);
    case CancelTask(t) => CancelKeeps(s, t);
    case Stop(t) => CancelKeeps(s, t);
    case Retry(t, sensitive) => RetryKeeps(s, t, sensitive);
    case Finish(t, to) => if Finishes(s, t, to) { TaskAloneKeeps(s, t, to); }
    case PutLevel(_) => ConfigTxKeeps(s, tx);
    case SetFeature(_) => ConfigTxKeeps(s, tx);
    case SetPolicies(_) => ConfigTxKeeps(s, tx);
    case SetWhitelist(_) => ConfigTxKeeps(s, tx);
    case Verified(_, _) => ConfigTxKeeps(s, tx);
  }

  lemma ConfigTxKeeps(s: State, tx: Tx)
    requires Inv(s) && (tx.PutLevel? || tx.SetFeature? || tx.SetPolicies? || tx.SetWhitelist? || tx.Verified?)
    ensures Inv(Apply(s, tx))
  {
    if tx.PutLevel? { WithLevelIsExclusive(s.cfg.levels, tx.level); }
    assert Apply(s, tx) == s.(cfg := Apply(s, tx).cfg);
    ConfigKeeps(s, Apply(s, tx).cfg);
  }

  /** Approval and task stay in lockstep over every run of transactions. */
  lemma {:induction false} LockstepInEveryRun(s: State, txs: seq<Tx>)
    requires Inv(s)
    ensures Inv(Run(s, txs))
    decreases |txs|
  {
    if txs != [] {
      LockstepInEveryRun(s, txs[..|txs| - 1]);
      StepKeepsInv(Run(s, txs[..|txs| - 1]), txs[|txs| - 1]);
    }
  }

  // ------------------------------------------------------------ licences

  predicate Enters(s: State, after: State, t: nat, status: Status) {
    t in after.tasks && after.tasks[t].status == status && (t in s.tasks ==> s.tasks[t].status != status)
  }

  /** Its approval moved from pending to approved in this very transaction. */
  ghost predicate JustApproved(s: State, after: State, t: nat) {
    t in s.tasks &&
    exists a :: a in s.approvals && a in after.approvals &&
      s.approvals[a].biz.Exec? && s.approvals[a].bizId == t && s.tasks[t].approval == Some(a) &&
      s.approvals[a].status.Pending? && after.approvals[a].status.Approved?
  }

  /** A policy hit under the one enabled level L4, recorded on the task's own approval. */
  ghost predicate AutoLicensed(s: State, after: State, t: nat, rem: Option<Remediation>) {
    t in after.tasks &&
    exists k :: rem.Some? && Licence(s.cfg, rem.value, k) &&
      after.tasks[t].approval.Some? && after.tasks[t].approval.value in after.approvals &&
      after.approvals[after.tasks[t].approval.value].mode == ByPolicy(s.cfg.policies[k].id) &&
      after.approvals[after.tasks[t].approval.value].status.Approved?
  }

  /**
   * From any reachable state, whatever the transaction: a task enters `running`
   * only with a non-sensitive verdict, with its own approval moving from pending
   * to approved, or on an auto-policy hit; and then L4 is the only enabled level.
   */
  lemma NoUnlicensedStart(s: State, txs: seq<Tx>, tx: Tx, t: nat)
    requires Inv(s)
    requires Enters(Run(s, txs), Apply(Run(s, txs), tx), t, ExecCas.Running)
    ensures var now := Run(s, txs);
            var after := Apply(now, tx);
            match tx
            case Create(sensitive, rem) =>
              !sensitive || (AutoLicensed(now, after, t, rem) && SoleL4(now.cfg.levels))
            case Retry(u, sensitive) => u == t && !sensitive
            case Approve(a) => JustApproved(now, after, t)
            case _ => false
  {
    LockstepInEveryRun(s, txs);
    var now := Run(s, txs);
    var after := Apply(now, tx);
    match tx {
      case Create(sensitive, rem) => if sensitive { AutoStartLicensed(now, rem, t); }
      case Approve(a) => assert InStep(now, a);
      case _ =>
    }
  }

  ghost predicate SoleL4(rows: seq<LevelRow>) {
    exists i :: 0 <= i < |rows| && rows[i] == LevelRow(L4, true) &&
      forall j :: 0 <= j < |rows| && rows[j].enabled ==> j == i
  }

  lemma AutoStartLicensed(s: State, rem: Option<Remediation>, t: nat)
    requires Inv(s) && Enters(s, ApplyCreate(s, true, rem), t, ExecCas.Running)
    ensures AutoLicensed(s, ApplyCreate(s, true, rem), t, rem) && SoleL4(s.cfg.levels)
  {
    var hit := ResolveAuto(s.cfg, rem);
    assert t == s.nextTask && hit.Some?;
    AutoHitExactly(s.cfg, rem, hit.value);
    var k :| Licence(s.cfg, rem.value, k) && s.cfg.policies[k].id == hit.value;
    var i :| 0 <= i < |s.cfg.levels| && s.cfg.levels[i].enabled && s.cfg.levels[i].level == L4;
    assert s.cfg.levels[i] == LevelRow(L4, true);
  }

  // ------------------------------------------------------------ every decision moves its task

  /** A pending exec approval of the task. */
  predicate PendingFor(s: State, a: nat, t: nat) {
    a in s.approvals && s.approvals[a].biz.Exec? && s.approvals[a].bizId == t && s.approvals[a].status.Pending?
  }

  /** The task has ended without a success of any kind. */
  predicate Unsuccessful(s: State, t: nat) {
    t in s.tasks && (s.tasks[t].status.Failed? || s.tasks[t].status.TimedOut? || s.tasks[t].status.Canceled?)
  }

  predicate Unfinished(s: State, t: nat) {
    t in s.tasks && !Unsuccessful(s, t) && !s.tasks[t].status.Success? && !s.tasks[t].status.Partial?
  }

  ghost predicate Licensed(s: State, rem: Option<Remediation>) {
    rem.Some? && exists k :: Licence(s.cfg, rem.value, k)
  }

  /** A sensitive creation or retry that no earlier approval of the number blocks. */
  ghost predicate Gates(s: State, tx: Tx, t: nat) {
    && !BizIdTaken(s.approvals, t)
    && match tx
       case Create(sensitive, rem) => t == s.nextTask && sensitive && !Licensed(s, rem)
       case Retry(u, sensitive) => u == t && sensitive && Unsuccessful(s, t)
       case _ => false
  }

  ghost predicate Starts(s: State, tx: Tx, t: nat) {
    match tx
    case Create(sensitive, rem) => t == s.nextTask && (sensitive ==> !BizIdTaken(s.approvals, t) && Licensed(s, rem))
    case Retry(u, sensitive) => u == t && !sensitive && Unsuccessful(s, t)
    case Approve(a) => PendingFor(s, a, t)
    case _ => false
  }

  predicate Cancels(s: State, tx: Tx, t: nat) {
    match tx
    case Reject(a) => PendingFor(s, a, t)
    case Withdraw(a) => PendingFor(s, a, t)
    case CancelTask(u) => u == t && Unfinished(s, t)
    case Stop(u) => u == t && Stoppable(s, t)
    case _ => false
  }

  /** The transaction brings the task into this status. */
  ghost predicate Brings(s: State, tx: Tx, t: nat, to: Status) {
    match to
    case Running => Starts(s, tx, t)
    case AwaitingApproval => Gates(s, tx, t)
    case Canceled => Cancels(s, tx, t)
    case _ => tx.Finish? && tx.t == t && tx.to == to && Finishes(s, t, to)
  }

  /** The task enters exactly the statuses the transaction brings it into; otherwise its row stays. */
  ghost predicate MovesAsTold(s: State, tx: Tx, t: nat) {
    var after := Apply(s, tx);
    && (forall to :: Enters(s, after, t, to) <==> Brings(s, tx, t, to))
    && (t in s.tasks ==> t in after.tasks && (after.tasks[t] == s.tasks[t] || after.tasks[t].version == s.tasks[t].version + 1))
    && (t in s.tasks && after.tasks[t].status == s.tasks[t].status ==> after.tasks[t] == s.tasks[t])
  }

  lemma LicensedIffHit(s: State, rem: Option<Remediation>)
    requires Inv(s)
    ensures Licensed(s, rem) <==> ResolveAuto(s.cfg, rem).Some?
  {
    if ResolveAuto(s.cfg, rem).Some? {
      AutoHitExactly(s.cfg, rem, ResolveAuto(s.cfg, rem).value);
    } else if Licensed(s, rem) {
      var k :| Licence(s.cfg, rem.value, k);
      AutoHitExactly(s.cfg, rem, s.cfg.policies[k].id);
      assert false;
    }
  }

  lemma PendingAwaits(s: State, a: nat)
    requires Inv(s) && a in s.approvals && s.approvals[a].biz.Exec?
    ensures s.approvals[a].bizId in s.tasks
    ensures s.approvals[a].status.Pending? <==>
              TaskAwaits(s, s.approvals[a].bizId) && s.tasks[s.approvals[a].bizId].approval == Some(a)
  {
    assert InStep(s, a);
  }

  lemma CreateMoves(s: State, sensitive: bool, rem: Option<Remediation>, t: nat)
    requires Inv(s)
    ensures MovesAsTold(s, Create(sensitive, rem), t)
  {
    LicensedIffHit(s, rem);
  }

  lemma DecisionMoves(s: State, tx: Tx, t: nat)
    requires Inv(s) && (tx.Approve? || tx.Reject? || tx.Withdraw?)
    ensures MovesAsTold(s, tx, t)
  {
    if tx.a in s.approvals && s.approvals[tx.a].biz.Exec? { PendingAwaits(s, tx.a); }
  }

  lemma RetryMoves(s: State, u: nat, sensitive: bool, t: nat)
    requires Inv(s)
    ensures MovesAsTold(s, Retry(u, sensitive), t)
  {
  }

  lemma OtherMoves(s: State, tx: Tx, t: nat)
    requires Inv(s) && !tx.Create? && !tx.Approve? && !tx.Reject? && !tx.Withdraw? && !tx.Retry?
    ensures MovesAsTold(s, tx, t)
  {
  }

  /** Over every run, whatever the transaction: a task starts, is gated, is canceled and ends exactly
      as `Brings` tells, each move bumps its version by one, and nothing else touches its row. */
  lemma TasksMoveAsTold(s: State, txs: seq<Tx>, tx: Tx, t: nat)
    requires Inv(s)
    ensures MovesAsTold(Run(s, txs), tx, t)
  {
    LockstepInEveryRun(s, txs);
    var now := Run(s, txs);
    if tx.Create? {
      CreateMoves(now, tx.sensitive, tx.remediation, t);
    } else if tx.Approve? || tx.Reject? || tx.Withdraw? {
      DecisionMoves(now, tx, t);
    } else if tx.Retry? {
      RetryMoves(now, tx.t, tx.sensitive, t);
    } else {
      OtherMoves(now, tx, t);
    }
  }

  predicate Decided(s: State, after: State, a: nat, to: Decision) {
    a in s.approvals && a in after.approvals && s.approvals[a].status.Pending? && after.approvals[a].status == to
  }

  /**
   * Over every run, of a pending exec approval: only `Approve` approves it and that starts its
   * task; only `Reject` rejects it, only `Withdraw` or cancelling the task cancels it, and each
   * of these cancels the task.
   */
  lemma DecisionsTakeEffect(s: State, txs: seq<Tx>, tx: Tx, a: nat)
    requires Inv(s) && a in Run(s, txs).approvals
    requires Run(s, txs).approvals[a].biz.Exec? && Run(s, txs).approvals[a].status.Pending?
    ensures var now, after := Run(s, txs), Apply(Run(s, txs), tx);
            && (Decided(now, after, a, Approved) <==> tx.Approve? && tx.a == a)
            && (Decided(now, after, a, Rejected) <==> tx.Reject? && tx.a == a)
            && (Decided(now, after, a, Canceled) <==>
                  (tx.Withdraw? && tx.a == a) || (tx.CancelTask? && tx.t == now.approvals[a].bizId))
            && TaskFollows(now, after, a)
  {
    LockstepInEveryRun(s, txs);
    var now := Run(s, txs);
    PendingAwaits(now, a);
    if tx.Approve? || tx.Reject? || tx.Withdraw? { DecisionMade(now, tx, a); } else { DecisionLeft(now, tx, a); }
  }

  /** The task follows the decision on its approval: approved it starts, refused it is canceled, and
      as long as nothing is decided its row stays. */
  ghost predicate TaskFollows(s: State, after: State, a: nat)
    requires a in s.approvals
  {
    var t := s.approvals[a].bizId;
    && (Decided(s, after, a, Approved) ==> Enters(s, after, t, ExecCas.Running))
    && (Decided(s, after, a, Rejected) || Decided(s, after, a, Canceled) ==> Enters(s, after, t, ExecCas.Canceled))
    && (Decided(s, after, a, Decision.Pending) ==>
          after.approvals[a] == s.approvals[a] && t in s.tasks && t in after.tasks && after.tasks[t] == s.tasks[t])
  }

  lemma DecisionMade(s: State, tx: Tx, a: nat)
    requires Inv(s) && a in s.approvals && PendingFor(s, a, s.approvals[a].bizId) && (tx.Approve? || tx.Reject? || tx.Withdraw?)
    requires TaskAwaits(s, s.approvals[a].bizId)
    ensures var after := Apply(s, tx);
            && Decided(s, after, a, if tx.a != a then Decision.Pending else if tx.Approve? then Approved
                                    else if tx.Reject? then Rejected else Canceled)
            && TaskFollows(s, after, a)
  {
  }

  /** Of the other transactions only cancelling the task decides a pending approval. */
  lemma DecisionLeft(s: State, tx: Tx, a: nat)
    requires Inv(s) && a in s.approvals && PendingFor(s, a, s.approvals[a].bizId) && !tx.Approve? && !tx.Reject? && !tx.Withdraw?
    requires TaskAwaits(s, s.approvals[a].bizId) && s.tasks[s.approvals[a].bizId].approval == Some(a)
    ensures var after := Apply(s, tx);
            && Decided(s, after, a, if tx.CancelTask? && tx.t == s.approvals[a].bizId then Canceled else Decision.Pending)
            && TaskFollows(s, after, a)
  {
    if tx.Retry? { RetryLeaves(s, tx.t, tx.sensitive, a); }
  }

  lemma RetryLeaves(s: State, t: nat, sensitive: bool, a: nat)
    requires Inv(s) && a in s.approvals && PendingFor(s, a, s.approvals[a].bizId) && TaskAwaits(s, s.approvals[a].bizId)
    ensures var after := Apply(s, Retry(t, sensitive));
            a in after.approvals && after.approvals[a] == s.approvals[a] && TaskFollows(s, after, a)
  {
    if RetryAllowed(s, t) { TaskAloneKeeps(s, t, ExecCas.Running); }
  }

  /** The approvals of other domains: the two that can be decided here are decided as asked, and no
      task moves; of an unknown domain nothing is decided. */
  lemma ForeignDecisions(s: State, tx: Tx, a: nat)
    requires a in s.approvals && !s.approvals[a].biz.Exec? && s.approvals[a].status.Pending?
    requires (tx.Approve? || tx.Reject? || tx.Withdraw?) && tx.a == a
    ensures Apply(s, tx).tasks == s.tasks
    ensures if s.approvals[a].biz.Other? then Apply(s, tx) == s
            else Decided(s, Apply(s, tx), a, if tx.Approve? then Approved else if tx.Reject? then Rejected else Canceled)
  {
  }

  // ------------------------------------------------------------ gating

  /** A sensitive creation lands exactly when no approval of any domain owns the new task's id. */
  lemma SensitiveCreateLandsIff(s: State, rem: Option<Remediation>)
    requires Inv(s)
    ensures s.nextTask in Apply(s, Create(true, rem)).tasks <==> !BizIdTaken(s.approvals, s.nextTask)
  {
  }

  /** A sensitive retry lands exactly when the task is retryable and was never gated before. */
  lemma SensitiveRetryLandsIff(s: State, t: nat)
    requires Inv(s)
    ensures Apply(s, Retry(t, true)).tasks != s.tasks <==>
              RetryAllowed(s, t) && !BizIdTaken(s.approvals, t)
    ensures Enters(s, Apply(s, Retry(t, true)), t, ExecCas.AwaitingApproval) <==>
              RetryAllowed(s, t) && !BizIdTaken(s.approvals, t)
  {
    if RetryAllowed(s, t) && !BizIdTaken(s.approvals, t) {
      assert Apply(s, Retry(t, true)).tasks[t] != s.tasks[t];
    }
  }

  lemma TakenStays(s: State, tx: Tx, bizId: nat)
    requires Numbered(s) && BizIdTaken(s.approvals, bizId)
    ensures BizIdTaken(Apply(s, tx).approvals, bizId)
  {
    var a :| a in s.approvals && s.approvals[a].bizId == bizId;
    assert a in Apply(s, tx).approvals && Apply(s, tx).approvals[a].bizId == bizId;
  }

  lemma GatingTakes(s: State, tx: Tx, t: nat)
    requires Inv(s) && Enters(s, Apply(s, tx), t, ExecCas.AwaitingApproval)
    ensures !BizIdTaken(s.approvals, t) && BizIdTaken(Apply(s, tx).approvals, t)
  {
    var after := Apply(s, tx);
    assert after.approvals[s.nextApproval].bizId == t;
  }

  /** Over every run a task enters `awaiting_approval` at most once in its life. */
  lemma {:induction false} GatedAtMostOnce(s: State, gate: Tx, txs: seq<Tx>, again: Tx, t: nat)
    requires Inv(s) && Enters(s, Apply(s, gate), t, ExecCas.AwaitingApproval)
    ensures var later := Run(Apply(s, gate), txs);
            Inv(later) && BizIdTaken(later.approvals, t) &&
            !Enters(later, Apply(later, again), t, ExecCas.AwaitingApproval)
    decreases |txs|
  {
    var first := Apply(s, gate);
    StepKeepsInv(s, gate);
    GatingTakes(s, gate, t);
    LockstepInEveryRun(first, txs);
    if txs != [] {
      var init := txs[..|txs| - 1];
      GatedAtMostOnce(s, gate, init, again, t);
      TakenStays(Run(first, init), txs[|txs| - 1], t);
    }
    var later := Run(first, txs);
    if Enters(later, Apply(later, again), t, ExecCas.AwaitingApproval) { GatingTakes(later, again, t); }
  }

  // ------------------------------------------------------------ the services

  /**
   * The task and approval tables as the services update them.  Each method
   * makes its writes one by one; a raise restores the rows of the snapshot
   * taken at the start of the transaction, but not the consumed ids.
   */
  class Store {
    var tasks: map<nat, Task>
    var approvals: map<nat, Approval>
    var nextTask: nat
    var nextApproval: nat
    var cfg: Config

    ghost function Value(): State
      reads this
    {
      State(tasks, approvals, nextTask, nextApproval, cfg)
    }

    method UpdateTask(t: nat, from: Status, to: Status, version: nat) returns (hit: bool)
      modifies this`tasks
      ensures hit <==> t in old(tasks) && old(tasks)[t].status == from && old(tasks)[t].version == version
      ensures tasks == if hit then SetStatus(old(tasks), t, to) else old(tasks)
    {
      hit := t in tasks && tasks[t].status == from && tasks[t].version == version;
      if hit { tasks := tasks[t := tasks[t].(status := to, version := version + 1)]; }
    }

    method UpdateApproval(a: nat, to: Decision, version: nat) returns (hit: bool)
      modifies this`approvals
      ensures hit <==> a in old(approvals) && old(approvals)[a].status.Pending? && old(approvals)[a].version == version
      ensures approvals == if hit then Decide(old(approvals), a, to) else old(approvals)
    {
      hit := a in approvals && approvals[a].status.Pending? && approvals[a].version == version;
      if hit { approvals := approvals[a := approvals[a].(status := to, version := version + 1)]; }
    }

    /** Adds a pending exec approval for `t`; the unique index may refuse it. */
    method InsertApproval(t: nat) returns (r: Result<nat, Error>)
      modifies this`approvals, this`nextApproval
      ensures nextApproval == old(nextApproval) + 1
      ensures BizIdTaken(old(approvals), t) ==> r == Err(Integrity) && approvals == old(approvals)
      ensures !BizIdTaken(old(approvals), t) ==>
                r == Ok(old(nextApproval)) &&
                approvals == old(approvals)[old(nextApproval) := Approval(Exec, t, Pending, 0, Manual)]
    {
      var id := nextApproval;
      nextApproval := nextApproval + 1;
      if BizIdTaken(approvals, t) { return Err(Integrity); }
      approvals := approvals[id := Approval(Exec, t, Pending, 0, Manual)];
      r := Ok(id);
    }

    /** `create_exec_task_record`; a schedule's run is the same without a remediation. */
    method CreateExecTask(sensitive: bool, rem: Option<Remediation>) returns (r: Result<nat, Error>)
      modifies this
      ensures Value() == Apply(old(Value()), Create(sensitive, rem))
      ensures r.Ok? <==> !sensitive || !BizIdTaken(old(approvals), old(nextTask))
      ensures r.Ok? ==> r.value == old(nextTask)
    {
      var t := nextTask;
      nextTask := nextTask + 1;
      var saved := tasks;
      tasks := tasks[t := Task(ExecCas.Created, 0, None)];
      if !sensitive {
        var _ := UpdateTask(t, ExecCas.Created, ExecCas.Running, 0);
        return Ok(t);
      }
      r := Gate(t, rem);
      if r.Err? { tasks := saved; }
    }

    /** Puts the fresh task behind an approval, which a policy hit then decides at once. */
    method Gate(t: nat, rem: Option<Remediation>) returns (r: Result<nat, Error>)
      requires t in tasks && tasks[t] == Task(ExecCas.Created, 0, None)
      modifies this`tasks, this`approvals, this`nextApproval
      ensures nextApproval == old(nextApproval) + 1
      ensures r == if BizIdTaken(old(approvals), t) then Err(Integrity) else Ok(t)
      ensures r.Err? ==> approvals == old(approvals)
      ensures r.Ok? ==>
                var a := old(nextApproval);
                var hit := ResolveAuto(cfg, rem);
                if hit.Some? then
                  tasks == old(tasks)[t := Task(ExecCas.Running, 2, Some(a))] &&
                  approvals == old(approvals)[a := Approval(Exec, t, Approved, 0, ByPolicy(hit.value))]
                else
                  tasks == old(tasks)[t := Task(ExecCas.AwaitingApproval, 1, Some(a))] &&
                  approvals == old(approvals)[a := Approval(Exec, t, Pending, 0, Manual)]
    {
      var inserted := InsertApproval(t);
      if inserted.Err? { return Err(inserted.error); }
      var a := inserted.value;
      tasks := tasks[t := tasks[t].(approval := Some(a))];
      var _ := UpdateTask(t, ExecCas.Created, ExecCas.AwaitingApproval, 0);
      PreAuthorise(a, rem);
      r := Ok(t);
    }

    /** The silent pre-authorisation of a freshly gated task. */
    method PreAuthorise(a: nat, rem: Option<Remediation>)
      requires a in approvals && approvals[a].biz.Exec? && TaskAwaits(Value(), approvals[a].bizId)
      modifies this`tasks, this`approvals
      ensures var hit := ResolveAuto(cfg, rem);
              var t := old(approvals)[a].bizId;
              if hit.None? then tasks == old(tasks) && approvals == old(approvals)
              else
                approvals == old(approvals)[a := old(approvals)[a].(status := Approved, mode := ByPolicy(hit.value))] &&
                tasks == SetStatus(old(tasks), t, ExecCas.Running)
    {
      var hit := ResolveAuto(cfg, rem);
      if hit.Some? {
        approvals := approvals[a := approvals[a].(status := Approved, mode := ByPolicy(hit.value))];
        var linked := ApproveLinkages(a);
        assert linked.Ok?;
      }
    }

    /** An approved exec approval starts its task; other domains have nothing to start here. */
    method ApproveLinkages(a: nat) returns (r: Result<(), Error>)
      requires a in approvals
      modifies this`tasks
      ensures r.Ok? <==> !approvals[a].biz.Other? &&
                         (approvals[a].biz.Exec? ==> TaskAwaits(old(Value()), approvals[a].bizId))
      ensures tasks == if r.Ok? && approvals[a].biz.Exec?
                       then SetStatus(old(tasks), approvals[a].bizId, ExecCas.Running) else old(tasks)
    {
      if approvals[a].biz.Other? { return Err(NotFound); }
      if approvals[a].biz.Exec? {
        var t := approvals[a].bizId;
        if t !in tasks { return Err(NotFound); }
        var hit := UpdateTask(t, ExecCas.AwaitingApproval, ExecCas.Running, tasks[t].version);
        if !hit { return Err(Conflict); }
      }
      r := Ok(());
    }

    method ApproveRequest(a: nat) returns (r: Result<(), Error>)
      modifies this`tasks, this`approvals
      ensures Value() == Apply(old(Value()), Approve(a))
      ensures r.Ok? <==> (Decidable(old(Value()), a) &&
                (old(approvals)[a].biz.Exec? ==> TaskAwaits(old(Value()), old(approvals)[a].bizId)))
    {
      if a !in approvals { return Err(NotFound); }
      if !approvals[a].status.Pending? { return Err(Conflict); }
      if approvals[a].biz.Other? { return Err(NotFound); }
      var saved := approvals;
      var _ := UpdateApproval(a, Approved, approvals[a].version);
      r := ApproveLinkages(a);
      if r.Err? { approvals := saved; }
    }

    /** `reject` records `Rejected`, the requester's `cancel` records `Canceled`. */
    method RefuseRequest(a: nat, withdraw: bool) returns (r: Result<(), Error>)
      modifies this`tasks, this`approvals
      ensures Value() == Apply(old(Value()), if withdraw then Withdraw(a) else Reject(a))
      ensures r.Ok? <==> Decidable(old(Value()), a)
    {
      if a !in approvals { return Err(NotFound); }
      if !approvals[a].status.Pending? { return Err(Conflict); }
      if approvals[a].biz.Other? { return Err(NotFound); }
      var _ := UpdateApproval(a, if withdraw then Canceled else Rejected, approvals[a].version);
      if approvals[a].biz.Exec? {
        var t := approvals[a].bizId;
        if t in tasks && tasks[t].status.AwaitingApproval? {
          var _ := UpdateTask(t, ExecCas.AwaitingApproval, ExecCas.Canceled, tasks[t].version);
        }
      }
      r := Ok(());
    }

    method CloseOrphanApproval(link: Option<nat>)
      modifies this`approvals
      ensures approvals == CloseOrphan(old(approvals), link)
    {
      if link.Some? && link.value in approvals && approvals[link.value].status.Pending? {
        var _ := UpdateApproval(link.value, Canceled, approvals[link.value].version);
      }
    }

    method CancelExecTask(t: nat) returns (moved: bool)
      requires t in tasks
      modifies this`tasks, this`approvals
      ensures Value() == Apply(old(Value()), CancelTask(t))
      ensures moved <==> ExecCas.Cancellable(old(tasks)[t].status)
    {
      var task := tasks[t];
      if !ExecCas.Cancellable(task.status) { return false; }
      moved := UpdateTask(t, task.status, ExecCas.Canceled, task.version);
      CloseOrphanApproval(task.approval);
    }

    method StopTask(t: nat) returns (r: Result<(), Error>)
      modifies this`tasks, this`approvals
      ensures Value() == Apply(old(Value()), Stop(t))
      ensures r.Ok? <==> Stoppable(old(Value()), t)
    {
      if t !in tasks { return Err(NotFound); }
      if !tasks[t].status.Running? && !tasks[t].status.Pending? { return Err(BadRequest); }
      var moved := CancelExecTask(t);
      assert moved;
      r := Ok(());
    }

    /** `retry_task`, and a schedule's `retry_run` of a run that has a task. */
    method RetryTask(t: nat, sensitive: bool) returns (r: Result<(), Error>)
      requires Inv(Value())
      modifies this`tasks, this`approvals, this`nextApproval
      ensures Value() == Apply(old(Value()), Retry(t, sensitive))
      ensures r.Ok? <==> RetryAllowed(old(Value()), t) && (sensitive ==> !BizIdTaken(old(approvals), t))
    {
      if t !in tasks { return Err(NotFound); }
      var task := tasks[t];
      if !ExecCas.Retryable(task.status) { return Err(BadRequest); }
      TaskAloneKeeps(Value(), t, ExecCas.Running);
      var savedTasks, savedApprovals := tasks, approvals;
      if sensitive {
        var _ := UpdateTask(t, task.status, ExecCas.AwaitingApproval, task.version);
        CloseOrphanApproval(task.approval);
        var inserted := InsertApproval(t);
        if inserted.Err? {
          tasks, approvals := savedTasks, savedApprovals;
          return Err(inserted.error);
        }
        tasks := tasks[t := tasks[t].(approval := Some(inserted.value))];
      } else {
        var _ := UpdateTask(t, task.status, ExecCas.Running, task.version);
        CloseOrphanApproval(task.approval);
      }
      r := Ok(());
    }
  }
}
