/**
 Extension authority: admission, authorization, execution permits and
 revocation, decided from the journal and journaled. A handler reads the
 journal and appends to it in two separate steps, and handlers of different
 connections interleave.

 Receipt ids are digests of what they certify and are modelled as that material.
 */
module Extensions {
  import opened Prelude
  import Journal

  datatype CapabilityRequest = CapabilityRequest(capability: nat, scope: seq<nat>)

  datatype Extension = Extension(id: nat, digest: nat, requests: seq<CapabilityRequest>, executor: Option<nat>, details: nat)

  datatype Receipt =
    | AdmissionReceipt(extension: Extension, principal: nat)
    | AuthorizationReceipt(admission: Receipt, approval: nat, approved: seq<nat>, digest: nat)
    | RevocationReceipt(authorization: Receipt, digest: nat, principal: nat, reason: nat)
    | OtherText(text: nat)

  datatype Decision = Decision(
    extension: nat,
    digest: nat,
    requested: seq<nat>,
    granted: seq<nat>,
    executor: Option<nat>,
    scopes: map<nat, seq<nat>>,
    receipt: Receipt)

  datatype Execution = Execution(
    operation: nat, extension: nat, digest: nat, authorization: Receipt,
    capability: nat, executor: Option<nat>, scope: seq<nat>)

  datatype Record =
    | Admitted(actor: nat, decision: Decision)
    | Authorized(actor: nat, decision: Decision)
    | Revoked(actor: nat, decision: Decision)
    | Permitted(actor: nat, execution: Execution)

  datatype Key =
    | AdmitKey(extension: nat, digest: nat, token: nat)
    | AuthorizeKey(extension: nat, digest: nat, approval: nat)
    | ExecuteKey(extension: nat, digest: nat, token: nat)
    | RevokeKey(extension: nat, digest: nat, token: nat)

  type Row = Journal.Entry<Key, Record>

  /** `wellFormed` stands for the field checks of the request. */
  datatype Request =
    | Admit(admission: Extension, wellFormed: bool)
    | Authorize(admission: Extension, wellFormed: bool, receipt: Receipt, approval: nat, approved: seq<nat>)
    | Execute(execution: Execution, wellFormed: bool)
    | Revoke(extension: nat, digest: nat, authorization: Receipt, reason: nat, wellFormed: bool)

  datatype Envelope = Envelope(principal: nat, token: nat, request: Request)

  datatype Outcome = Refused | Replayed(decision: Decision) | Journaled(row: Row)

  // ---------------------------------------------------------------------------
  // Searches
  // ---------------------------------------------------------------------------

  predicate IsDecision(e: Row, extension: nat) {
    e.workload == extension && (e.record.Authorized? || e.record.Revoked?)
  }

  predicate IsAdmission(e: Row, extension: nat, receipt: Receipt) {
    e.workload == extension && e.record.Admitted? && e.record.decision.receipt == receipt
  }

  /** The latest authorization or revocation of an extension. */
  function LatestDecision(log: seq<Row>, extension: nat): (r: Option<nat>)
    ensures r.None? ==> forall i :: 0 <= i < |log| ==> !IsDecision(log[i], extension)
    ensures r.Some? ==> r.value < |log| && IsDecision(log[r.value], extension)
                        && forall i :: r.value < i < |log| ==> !IsDecision(log[i], extension)
  {
    if log == [] then None
    else if IsDecision(log[|log| - 1], extension) then Some(|log| - 1)
    else LatestDecision(log[..|log| - 1], extension)
  }

  function LatestAdmission(log: seq<Row>, extension: nat, receipt: Receipt): (r: Option<nat>)
    ensures r.None? <==> forall i :: 0 <= i < |log| ==> !IsAdmission(log[i], extension, receipt)
    ensures r.Some? ==> r.value < |log| && IsAdmission(log[r.value], extension, receipt)
  {
    if log == [] then None
    else if IsAdmission(log[|log| - 1], extension, receipt) then Some(|log| - 1)
    else LatestAdmission(log[..|log| - 1], extension, receipt)
  }

  function LatestRevocation(log: seq<Row>, extension: nat, key: Key): (r: Option<nat>)
    ensures r.Some? ==> r.value < |log| && log[r.value].record.Revoked? && log[r.value].key == Some(key)
  {
    if log == [] then None
    else
      var e := log[|log| - 1];
      if e.workload == extension && e.record.Revoked? && e.key == Some(key) then Some(|log| - 1)
      else LatestRevocation(log[..|log| - 1], extension, key)
  }

  // ---------------------------------------------------------------------------
  // Decisions
  // ---------------------------------------------------------------------------

  function Names(requests: seq<CapabilityRequest>): seq<nat> {
    seq(|requests|, i requires 0 <= i < |requests| => requests[i].capability)
  }

  /** A later request for the same capability replaces the scope of an earlier one. */
  function Scopes(requests: seq<CapabilityRequest>): map<nat, seq<nat>> {
    if requests == [] then map[]
    else
      var last := requests[|requests| - 1];
      Scopes(requests[..|requests| - 1])[last.capability := last.scope]
  }

  predicate Distinct(s: seq<nat>) {
    forall i, j :: 0 <= i < j < |s| ==> s[i] != s[j]
  }

  function Admission(x: Extension, principal: nat): Decision {
    Decision(x.id, x.digest, Names(x.requests), [], x.executor, Scopes(x.requests), AdmissionReceipt(x, principal))
  }

  function DecideAdmit(m: Envelope): Outcome
    requires m.request.Admit?
  {
    var x := m.request.admission;
    if !m.request.wellFormed then Refused
    else Journaled(Journal.Entry(x.id, Some(AdmitKey(x.id, x.digest, m.token)), Admitted(m.principal, Admission(x, m.principal))))
  }

  /** Approval binds the whole request to a journaled admission, under the actor who admitted it. */
  function DecideAuthorize(log: seq<Row>, m: Envelope): Outcome
    requires m.request.Authorize?
  {
    var q := m.request;
    var x := q.admission;
    if !q.wellFormed || !Distinct(q.approved) || exists c :: c in q.approved && c !in Names(x.requests) then Refused
    else
      var at := LatestAdmission(log, x.id, q.receipt);
      if at.None? then Refused
      else
        var prior := log[at.value].record;
        if q.receipt != AdmissionReceipt(x, prior.actor) then Refused
        else if prior.decision.extension != x.id || prior.decision.digest != x.digest then Refused
        else
          var d := Decision(x.id, x.digest, Names(x.requests), q.approved, prior.decision.executor, prior.decision.scopes,
                            AuthorizationReceipt(q.receipt, q.approval, q.approved, x.digest));
          Journaled(Journal.Entry(x.id, Some(AuthorizeKey(x.id, x.digest, q.approval)), Authorized(m.principal, d)))
  }

  predicate WithinScope(d: Decision, e: Execution) {
    var allowed := if e.capability in d.scopes then d.scopes[e.capability] else [];
    forall i :: 0 <= i < |e.scope| ==> e.scope[i] in allowed
  }

  /** What the permit handler checks of the latest decision. */
  predicate Grants(d: Decision, e: Execution) {
    && d.receipt == e.authorization && d.extension == e.extension && d.digest == e.digest
    && e.capability in d.granted && WithinScope(d, e)
    && (d.executor.Some? ==> e.executor == d.executor)
  }

  function DecideExecute(log: seq<Row>, m: Envelope): Outcome
    requires m.request.Execute?
  {
    var e := m.request.execution;
    var at := LatestDecision(log, e.extension);
    if !m.request.wellFormed || at.None? || !Grants(log[at.value].record.decision, e) then Refused
    else Journaled(Journal.Entry(e.extension, Some(ExecuteKey(e.extension, e.digest, m.token)), Permitted(m.principal, e)))
  }

  function DecideRevoke(log: seq<Row>, m: Envelope): Outcome
    requires m.request.Revoke?
  {
    var q := m.request;
    var key := RevokeKey(q.extension, q.digest, m.token);
    var replay := LatestRevocation(log, q.extension, key);
    if !q.wellFormed then Refused
    else if replay.Some? then Replayed(log[replay.value].record.decision)
    else
      var at := LatestDecision(log, q.extension);
      if at.None? || !log[at.value].record.Authorized? then Refused
      else
        var prior := log[at.value].record.decision;
        if prior.receipt != q.authorization || prior.extension != q.extension || prior.digest != q.digest then Refused
        else
          var d := Decision(q.extension, q.digest, prior.requested, [], prior.executor, prior.scopes,
                            RevocationReceipt(q.authorization, q.digest, m.principal, q.reason));
          Journaled(Journal.Entry(q.extension, Some(key), Revoked(m.principal, d)))
  }

  function Decide(log: seq<Row>, m: Envelope): Outcome {
    match m.request
    case Admit(_, _) => DecideAdmit(m)
    case Authorize(_, _, _, _, _) => DecideAuthorize(log, m)
    case Execute(_, _) => DecideExecute(log, m)
    case Revoke(_, _, _, _, _) => DecideRevoke(log, m)
  }

  // ---------------------------------------------------------------------------
  // Interleaved handlers
  // ---------------------------------------------------------------------------

  /** Which request a row answers, and how long the journal was when it was read. */
  datatype Origin = Origin(at: nat, envelope: Envelope)

  datatype Pending = Pending(row: Row, origin: Origin)

  datatype State = State(log: seq<Row>, origins: seq<Origin>, pending: map<nat, Pending>)

  datatype Action = Read(handler: nat, envelope: Envelope) | Write(handler: nat) | Crash

  ghost predicate Enabled(s: State, a: Action) {
    match a
    case Read(h, _) => h !in s.pending
    case Write(h) => h in s.pending
    case Crash => true
  }

  function Do(s: State, a: Action): State
    requires a.Write? ==> a.handler in s.pending
  {
    match a
    case Read(h, m) =>
      var o := Decide(s.log, m);
      if o.Journaled? then s.(pending := s.pending[h := Pending(o.row, Origin(|s.log|, m))]) else s
    case Write(h) =>
      var p := s.pending[h];
      var log := Journal.Appended(s.log, p.row);
      State(log, if log == s.log then s.origins else s.origins + [p.origin], s.pending - {h})
    case Crash => s.(pending := map[])
  }

  ghost predicate StepAt(run: seq<State>, acts: seq<Action>, i: nat)
    requires i + 1 < |run| && i < |acts|
  {
    Enabled(run[i], acts[i]) && run[i + 1] == Do(run[i], acts[i])
  }

  ghost predicate IsRun(run: seq<State>, acts: seq<Action>) {
    && |run| == |acts| + 1 && run[0] == State([], [], map[])
    && forall i :: 0 <= i < |acts| ==> StepAt(run, acts, i)
  }

  /** A row is what its request deserved when the journal had its first `at` rows. */
  ghost predicate Justified(log: seq<Row>, o: Origin, row: Row) {
    o.at <= |log| && Decide(log[..o.at], o.envelope) == Journaled(row)
  }

  ghost predicate Inv(s: State) {
    && |s.origins| == |s.log| && Journal.UniqueKeys(s.log)
    && (forall k: nat {:trigger JustifiedAt(s, k)} :: k < |s.log| ==> JustifiedAt(s, k))
    && (forall h {:trigger JustifiedFor(s, h)} :: h in s.pending ==> JustifiedFor(s, h))
  }

  ghost predicate JustifiedAt(s: State, k: nat)
    requires |s.origins| == |s.log| && k < |s.log|
  {
    s.origins[k].at <= k && Justified(s.log, s.origins[k], s.log[k])
  }

  ghost predicate JustifiedFor(s: State, h: nat)
    requires h in s.pending
  {
    Justified(s.log, s.pending[h].origin, s.pending[h].row)
  }

  lemma MoreRowsJustify(log: seq<Row>, log': seq<Row>, o: Origin, row: Row)
    requires log <= log' && Justified(log, o, row)
    ensures Justified(log', o, row)
  {
    assert log'[..o.at] == log[..o.at];
  }

  lemma StepKeepsInv(s: State, a: Action)
    requires Inv(s) && Enabled(s, a)
    ensures Inv(Do(s, a)) && s.log <= Do(s, a).log
  {
    var s' := Do(s, a);
    forall k: nat | k < |s'.log| ensures JustifiedAt(s', k) {
      if k < |s.log| {
        assert JustifiedAt(s, k);
        MoreRowsJustify(s.log, s'.log, s.origins[k], s.log[k]);
      } else {
        assert JustifiedFor(s, a.handler);
        MoreRowsJustify(s.log, s'.log, s.pending[a.handler].origin, s.pending[a.handler].row);
      }
    }
    forall h | h in s'.pending ensures JustifiedFor(s', h) {
      if h in s.pending && s'.pending[h] == s.pending[h] {
        assert JustifiedFor(s, h);
        MoreRowsJustify(s.log, s'.log, s.pending[h].origin, s.pending[h].row);
      } else {
        assert s.log[..|s.log|] == s.log;
      }
    }
  }

  lemma {:induction false} EveryRunKeepsInv(run: seq<State>, acts: seq<Action>, i: nat)
    requires IsRun(run, acts) && i < |run|
    ensures Inv(run[i])
  {
    if i > 0 {
      EveryRunKeepsInv(run, acts, i - 1);
      assert StepAt(run, acts, i - 1);
      StepKeepsInv(run[i - 1], acts[i - 1]);
    }
  }

  // ---------------------------------------------------------------------------
  // What the rows certify
  // ---------------------------------------------------------------------------

  lemma AdmittedMeans(s: State, i: nat)
    requires Inv(s) && i < |s.log| && s.log[i].record.Admitted?
    ensures var r := s.log[i].record;
            r.decision.receipt.AdmissionReceipt? && r.decision == Admission(r.decision.receipt.extension, r.actor)
            && s.log[i].workload == r.decision.extension
  {
    assert JustifiedAt(s, i);
  }

  /** An authorization rests on an earlier admission of the very request it approves. */
  ghost predicate RestsOn(log: seq<Row>, j: nat, i: nat)
    requires j < |log| && log[j].record.Authorized?
  {
    && i < j && log[i].record.Admitted? && log[i].workload == log[j].workload
    && var d, a := log[j].record.decision, log[i].record.decision;
       && d.receipt.AuthorizationReceipt? && d.receipt.admission == a.receipt && a.receipt.AdmissionReceipt?
       && var x := a.receipt.extension;
          && d.extension == x.id == log[j].workload && d.digest == x.digest
          && d.requested == Names(x.requests) && d.granted == d.receipt.approved && d.receipt.digest == x.digest
          && d.scopes == Scopes(x.requests) && d.executor == x.executor
          && (forall c :: c in d.granted ==> c in Names(x.requests))
  }

  lemma AuthorizedMeans(s: State, j: nat) returns (i: nat)
    requires Inv(s) && j < |s.log| && s.log[j].record.Authorized?
    ensures RestsOn(s.log, j, i)
    ensures var d := s.log[j].record.decision; s.log[j].key == Some(AuthorizeKey(d.extension, d.digest, d.receipt.approval))
  {
    var o := s.origins[j];
    assert JustifiedAt(s, j);
    var q := o.envelope.request;
    var at := LatestAdmission(s.log[..o.at], q.admission.id, q.receipt);
    i := at.value;
    assert s.log[..o.at][i] == s.log[i];
    AdmittedMeans(s, i);
  }

  lemma RevokedMeans(s: State, v: nat) returns (j: nat)
    requires Inv(s) && v < |s.log| && s.log[v].record.Revoked?
    ensures j < v && s.log[j].record.Authorized? && s.log[j].workload == s.log[v].workload
    ensures s.log[v].record.decision.granted == []
    ensures s.log[v].record.decision.receipt.RevocationReceipt?
    ensures s.log[v].record.decision.receipt.authorization == s.log[j].record.decision.receipt
  {
    var o := s.origins[v];
    assert JustifiedAt(s, v);
    var prefix := s.log[..o.at];
    j := LatestDecision(prefix, o.envelope.request.extension).value;
    assert prefix[j] == s.log[j];
  }

  /** The authorization a permit was decided on: the latest decision when its handler read the journal. */
  ghost predicate DecidedOn(s: State, k: nat, j: nat)
    requires |s.origins| == |s.log| && k < |s.log| && s.log[k].record.Permitted?
  {
    var e := s.log[k].record.execution;
    && s.log[k].workload == e.extension
    && s.origins[k].at <= k && LatestDecision(s.log[..s.origins[k].at], e.extension) == Some(j)
    && s.log[j].record.Authorized? && Grants(s.log[j].record.decision, e)
  }

  lemma PermittedMeans(s: State, k: nat) returns (j: nat)
    requires Inv(s) && k < |s.log| && s.log[k].record.Permitted?
    ensures DecidedOn(s, k, j)
  {
    var o, e := s.origins[k], s.log[k].record.execution;
    assert JustifiedAt(s, k);
    var prefix := s.log[..o.at];
    j := LatestDecision(prefix, e.extension).value;
    assert prefix[j] == s.log[j];
    if s.log[j].record.Revoked? {
      var _ := RevokedMeans(s, j);
    }
  }

  // ---------------------------------------------------------------------------
  // Main results
  // ---------------------------------------------------------------------------

  /** An authorization receipt stands in the journal once. */
  lemma ReceiptIsUnique(s: State, i: nat, j: nat)
    requires Inv(s) && i < |s.log| && j < |s.log| && s.log[i].record.Authorized? && s.log[j].record.Authorized?
    requires s.log[i].record.decision.receipt == s.log[j].record.decision.receipt
    ensures i == j
  {
    var a := AuthorizedMeans(s, i);
    var b := AuthorizedMeans(s, j);
    assert s.log[i].key == s.log[j].key;
  }

  ghost predicate AsksFor(x: Extension, m: nat, e: Execution) {
    m < |x.requests| && x.requests[m].capability == e.capability && forall i :: 0 <= i < |e.scope| ==> e.scope[i] in x.requests[m].scope
  }

  lemma {:induction false} ScopeOf(requests: seq<CapabilityRequest>, c: nat) returns (m: nat)
    requires c in Names(requests)
    ensures m < |requests| && requests[m].capability == c && c in Scopes(requests) && Scopes(requests)[c] == requests[m].scope
    ensures forall i :: m < i < |requests| ==> requests[i].capability != c
  {
    var n := |requests| - 1;
    if requests[n].capability == c {
      m := n;
    } else {
      var i :| 0 <= i < |requests| && Names(requests)[i] == c;
      assert Names(requests[..n])[i] == c;
      m := ScopeOf(requests[..n], c);
    }
  }

  /**
   Every journaled permit, in every run: the extension had been admitted asking
   for this capability with at least this scope, and an authorization resting on
   that admission granted it to this executor and digest.
   */
  lemma PermitWithinAdmission(run: seq<State>, acts: seq<Action>, n: nat, k: nat) returns (j: nat, i: nat, m: nat)
    requires IsRun(run, acts) && n < |run| && k < |run[n].log| && run[n].log[k].record.Permitted?
    ensures |run[n].origins| == |run[n].log| && DecidedOn(run[n], k, j) && j < k && RestsOn(run[n].log, j, i)
    ensures AsksFor(run[n].log[i].record.decision.receipt.extension, m, run[n].log[k].record.execution)
  {
    var s := run[n];
    EveryRunKeepsInv(run, acts, n);
    j := PermittedMeans(s, k);
    i := AuthorizedMeans(s, j);
    var e := s.log[k].record.execution;
    m := ScopeOf(s.log[i].record.decision.receipt.extension.requests, e.capability);
  }

  /** No authorization or revocation of the extension came between the handler's read and its append. */
  ghost predicate Undisturbed(s: State, k: nat)
    requires |s.origins| == |s.log| && k < |s.log|
  {
    forall i :: s.origins[k].at <= i < k ==> !IsDecision(s.log[i], s.log[k].workload)
  }

  /** At its own place in the journal, the latest decision is the authorization the permit names. */
  ghost predicate Current(s: State, k: nat)
    requires k < |s.log| && s.log[k].record.Permitted?
  {
    var j := LatestDecision(s.log[..k], s.log[k].workload);
    j.Some? && s.log[j.value].record.Authorized? && s.log[j.value].record.decision.receipt == s.log[k].record.execution.authorization
  }

  /** A permit is current where it stands exactly when no decision slipped in between. */
  lemma CurrentIffUndisturbed(run: seq<State>, acts: seq<Action>, n: nat, k: nat)
    requires IsRun(run, acts) && n < |run| && k < |run[n].log| && run[n].log[k].record.Permitted?
    ensures |run[n].origins| == |run[n].log| && (Current(run[n], k) <==> Undisturbed(run[n], k))
  {
    var s := run[n];
    EveryRunKeepsInv(run, acts, n);
    var j := PermittedMeans(s, k);
    var at, ext := s.origins[k].at, s.log[k].workload;
    var latest := LatestDecision(s.log[..k], ext);
    assert s.log[..k][j] == s.log[j] == s.log[..at][j];
    assert latest.Some? && latest.value >= j;
    assert s.log[..k][latest.value] == s.log[latest.value];
    if Undisturbed(s, k) {
      if latest.value < at {
        assert s.log[..at][latest.value] == s.log[latest.value];
      }
      assert latest.value == j;
    }
    if Current(s, k) {
      ReceiptIsUnique(s, latest.value, j);
      forall i | at <= i < k ensures !IsDecision(s.log[i], ext) {
        assert s.log[..k][i] == s.log[i];
      }
    }
  }

  /** No earlier authorization of this extension and digest used the approval id of the one at j. */
  ghost predicate FreshApproval(log: seq<Row>, j: nat)
    requires j < |log| && log[j].record.Authorized?
  {
    && log[j].record.decision.receipt.AuthorizationReceipt?
    && forall i :: 0 <= i < j && log[i].record.Authorized? && log[i].record.decision.receipt.AuthorizationReceipt?
                   && log[i].record.decision.extension == log[j].record.decision.extension
                   && log[i].record.decision.digest == log[j].record.decision.digest
                   ==> log[i].record.decision.receipt.approval != log[j].record.decision.receipt.approval
  }

  lemma EveryApprovalIsFresh(s: State, j: nat)
    requires Inv(s) && j < |s.log| && s.log[j].record.Authorized?
    ensures FreshApproval(s.log, j)
  {
    var a := AuthorizedMeans(s, j);
    forall i | 0 <= i < j && s.log[i].record.Authorized? && s.log[i].record.decision.receipt.AuthorizationReceipt?
               && s.log[i].record.decision.extension == s.log[j].record.decision.extension
               && s.log[i].record.decision.digest == s.log[j].record.decision.digest
      ensures s.log[i].record.decision.receipt.approval != s.log[j].record.decision.receipt.approval
    {
      var b := AuthorizedMeans(s, i);
    }
  }

  lemma LatestIsNoEarlier(log: seq<Row>, at: nat, extension: nat, v: nat)
    requires v < at <= |log| && IsDecision(log[v], extension)
    ensures LatestDecision(log[..at], extension).Some? && v <= LatestDecision(log[..at], extension).value
  {
    assert log[..at][v] == log[v];
  }

  /** No authorization before v carries this receipt. */
  ghost predicate DeadBefore(log: seq<Row>, v: nat, receipt: Receipt)
    requires v <= |log|
  {
    forall i :: 0 <= i < v && log[i].record.Authorized? ==> log[i].record.decision.receipt != receipt
  }

  lemma EarlierReceiptsAreDead(s: State, v: nat, j: nat)
    requires Inv(s) && v <= j < |s.log| && s.log[j].record.Authorized?
    ensures DeadBefore(s.log, v, s.log[j].record.decision.receipt)
  {
    forall i | 0 <= i < v && s.log[i].record.Authorized? ensures s.log[i].record.decision.receipt != s.log[j].record.decision.receipt {
      if s.log[i].record.decision.receipt == s.log[j].record.decision.receipt {
        ReceiptIsUnique(s, i, j);
      }
    }
  }

  lemma DecidedAfterRevocation(s: State, v: nat, k: nat, j: nat)
    requires |s.origins| == |s.log| && v < k < |s.log| && s.origins[k].at > v && s.log[k].record.Permitted?
    requires IsDecision(s.log[v], s.log[k].workload) && s.log[v].record.Revoked? && DecidedOn(s, k, j)
    ensures v < j < k
  {
    LatestIsNoEarlier(s.log, s.origins[k].at, s.log[k].workload, v);
  }

  /**
   In every run, a permit decided after a revocation rests on an authorization
   journaled after that revocation under an approval id never used before for
   the extension and digest. Authorizations from before stay dead.
   */
  lemma NoPermitAfterRevocation(run: seq<State>, acts: seq<Action>, n: nat, v: nat, k: nat) returns (j: nat)
    requires IsRun(run, acts) && n < |run| && v < k < |run[n].log|
    requires |run[n].origins| == |run[n].log| && run[n].origins[k].at > v
    requires run[n].log[k].record.Permitted? && IsDecision(run[n].log[v], run[n].log[k].workload) && run[n].log[v].record.Revoked?
    ensures v < j < |run[n].log| && DecidedOn(run[n], k, j) && run[n].log[j].record.Authorized? && FreshApproval(run[n].log, j)
    ensures DeadBefore(run[n].log, v, run[n].log[k].record.execution.authorization)
  {
    var s := run[n];
    EveryRunKeepsInv(run, acts, n);
    j := PermittedMeans(s, k);
    DecidedAfterRevocation(s, v, k, j);
    EveryApprovalIsFresh(s, j);
    EarlierReceiptsAreDead(s, v, j);
  }

  lemma {:induction false} JournalOnlyGrows(run: seq<State>, acts: seq<Action>, n: nat, m: nat)
    requires IsRun(run, acts) && n <= m < |run|
    ensures run[n].log <= run[m].log
  {
    if n < m {
      JournalOnlyGrows(run, acts, n, m - 1);
      EveryRunKeepsInv(run, acts, m - 1);
      assert StepAt(run, acts, m - 1);
      StepKeepsInv(run[m - 1], acts[m - 1]);
    }
  }

  /**
   For one extension and digest an approval id is spent by the first
   authorization journaled under it: in every later state of the run that row is
   still the only one, whatever grants or executor were asked for since.
   */
  lemma ApprovalIsSpent(run: seq<State>, acts: seq<Action>, n: nat, m: nat, i: nat, k: nat)
    requires IsRun(run, acts) && n <= m < |run| && i < |run[n].log| && k < |run[m].log|
    requires run[n].log[i].record.Authorized? && run[m].log[k].record.Authorized?
    requires var d, e := run[n].log[i].record.decision, run[m].log[k].record.decision;
             && d.extension == e.extension && d.digest == e.digest
             && d.receipt.AuthorizationReceipt? && e.receipt.AuthorizationReceipt? && d.receipt.approval == e.receipt.approval
    ensures k == i && run[m].log[k] == run[n].log[i]
  {
    JournalOnlyGrows(run, acts, n, m);
    EveryRunKeepsInv(run, acts, m);
    var a := AuthorizedMeans(run[m], i);
    var b := AuthorizedMeans(run[m], k);
    assert run[m].log[i].key == run[m].log[k].key;
  }

  // ---------------------------------------------------------------------------
  // A decision can slip in between
  // ---------------------------------------------------------------------------

  lemma ReadWaits(s: State, h: nat, m: Envelope, row: Row)
    requires h !in s.pending && Decide(s.log, m) == Journaled(row)
    ensures Enabled(s, Read(h, m)) && Do(s, Read(h, m)) == s.(pending := s.pending[h := Pending(row, Origin(|s.log|, m))])
  {}

  lemma WriteAppends(s: State, h: nat)
    requires h in s.pending && forall i :: 0 <= i < |s.log| ==> s.log[i].key != s.pending[h].row.key
    ensures Enabled(s, Write(h))
    ensures Do(s, Write(h)) == State(s.log + [s.pending[h].row], s.origins + [s.pending[h].origin], s.pending - {h})
  {
    assert |s.log + [s.pending[h].row]| == |s.log| + 1;
  }

  lemma ExtendRun(run: seq<State>, acts: seq<Action>, a: Action)
    requires IsRun(run, acts) && Enabled(run[|run| - 1], a)
    ensures IsRun(run + [Do(run[|run| - 1], a)], acts + [a])
  {
    var run', acts' := run + [Do(run[|run| - 1], a)], acts + [a];
    forall i | 0 <= i < |acts'| ensures StepAt(run', acts', i) {
      if i < |acts| {
        assert StepAt(run, acts, i);
      }
    }
  }

  ghost predicate Reached(s: State) {
    exists run, acts :: IsRun(run, acts) && run[|run| - 1] == s
  }

  lemma ReachNext(s: State, a: Action)
    requires Reached(s) && Enabled(s, a)
    ensures Reached(Do(s, a))
  {
    var run, acts :| IsRun(run, acts) && run[|run| - 1] == s;
    ExtendRun(run, acts, a);
    var run', acts' := run + [Do(s, a)], acts + [a];
    assert IsRun(run', acts') && run'[|run'| - 1] == Do(s, a);
  }

  /** Read and append at once, by a handler that is not busy. */
  lemma Serve(s: State, h: nat, m: Envelope, row: Row) returns (end: State)
    requires Reached(s) && h !in s.pending && Decide(s.log, m) == Journaled(row) && forall i :: 0 <= i < |s.log| ==> s.log[i].key != row.key
    ensures Reached(end) && end == State(s.log + [row], s.origins + [Origin(|s.log|, m)], s.pending)
  {
    ReadWaits(s, h, m, row);
    ReachNext(s, Read(h, m));
    var mid := Do(s, Read(h, m));
    WriteAppends(mid, h);
    ReachNext(mid, Write(h));
    end := Do(mid, Write(h));
    assert end.pending == s.pending;
  }

  const Sample := Extension(1, 2, [CapabilityRequest(3, [])], None, 0)
  const SampleAdmission := AdmissionReceipt(Sample, 0)
  const SampleGrant := AuthorizationReceipt(SampleAdmission, 7, [3], 2)
  const SampleExecution := Execution(5, 1, 2, SampleGrant, 3, None, [])

  lemma SampleAuthorized() returns (s: State)
    ensures Reached(s) && s.pending == map[] && |s.log| == 2 && s.log[0].key == Some(AdmitKey(1, 2, 0)) && s.log[1].key == Some(AuthorizeKey(1, 2, 7))
    ensures s.log[1].workload == 1 && s.log[1].record == Authorized(0, Decision(1, 2, [3], [3], None, Scopes(Sample.requests), SampleGrant))
  {
    var s0 := State([], [], map[]);
    assert IsRun([s0], []) && [s0][|[s0]| - 1] == s0;
    assert Names(Sample.requests) == [3];
    var m0 := Envelope(0, 0, Admit(Sample, true));
    var s1 := Serve(s0, 0, m0, Journal.Entry(1, Some(AdmitKey(1, 2, 0)), Admitted(0, Admission(Sample, 0))));
    assert LatestAdmission(s1.log, 1, SampleAdmission) == Some(0);
    var m1 := Envelope(0, 1, Authorize(Sample, true, SampleAdmission, 7, [3]));
    s := Serve(s1, 0, m1, Journal.Entry(1, Some(AuthorizeKey(1, 2, 7)), Authorized(0, Decision(1, 2, [3], [3], None, Scopes(Sample.requests), SampleGrant))));
  }

  lemma SampleRevoked(s: State) returns (end: State)
    requires Reached(s) && 0 !in s.pending && |s.log| == 2 && s.log[0].key == Some(AdmitKey(1, 2, 0)) && s.log[1].key == Some(AuthorizeKey(1, 2, 7))
    requires s.log[1].workload == 1 && s.log[1].record == Authorized(0, Decision(1, 2, [3], [3], None, Scopes(Sample.requests), SampleGrant))
    ensures Reached(end) && end.pending == s.pending && |end.log| == 3 && end.log[..2] == s.log && end.log[2].key == Some(RevokeKey(1, 2, 3))
    ensures end.log[2].record.Revoked? && end.log[2].record.decision.receipt == RevocationReceipt(SampleGrant, 2, 0, 0)
  {
    var m := Envelope(0, 3, Revoke(1, 2, SampleGrant, 0, true));
    assert LatestDecision(s.log, 1) == Some(1);
    assert LatestRevocation(s.log, 1, RevokeKey(1, 2, 3)) == None;
    end := Serve(s, 0, m, Journal.Entry(1, Some(RevokeKey(1, 2, 3)), Revoked(0, Decision(1, 2, [3], [], None, Scopes(Sample.requests), RevocationReceipt(SampleGrant, 2, 0, 0)))));
  }

  /** A permit can stand after the revocation of its own authorization, its handler having read the journal before. */
  lemma PermitCanFollowRevocation() returns (s: State)
    ensures Reached(s) && |s.log| == 4 && s.log[2].record.Revoked? && s.log[3].record.Permitted?
    ensures s.log[2].record.decision.receipt == RevocationReceipt(s.log[3].record.execution.authorization, 2, 0, 0)
  {
    var s1 := SampleAuthorized();
    var m := Envelope(0, 2, Execute(SampleExecution, true));
    var row: Row := Journal.Entry(1, Some(ExecuteKey(1, 2, 2)), Permitted(0, SampleExecution));
    assert LatestDecision(s1.log, 1) == Some(1);
    ReadWaits(s1, 1, m, row);
    ReachNext(s1, Read(1, m));
    var s2 := SampleRevoked(Do(s1, Read(1, m)));
    assert s2.log[0] == s1.log[0] && s2.log[1] == s1.log[1] && s2.pending[1].row == row;
    WriteAppends(s2, 1);
    ReachNext(s2, Write(1));
    s := Do(s2, Write(1));
  }

  // ---------------------------------------------------------------------------
  // The daemon
  // ---------------------------------------------------------------------------

  /** A permit answered to the caller, journaled or not, is backed by an authorization in force at the read. */
  lemma AnsweredPermit(s: State, m: Envelope) returns (j: nat)
    requires Inv(s) && m.request.Execute? && Decide(s.log, m).Journaled?
    ensures LatestDecision(s.log, m.request.execution.extension) == Some(j)
    ensures j < |s.log| && s.log[j].record.Authorized? && Grants(s.log[j].record.decision, m.request.execution)
  {
    j := LatestDecision(s.log, m.request.execution.extension).value;
    if s.log[j].record.Revoked? {
      var _ := RevokedMeans(s, j);
    }
  }

  lemma UsedKeyAddsNothing(log: seq<Row>, log': seq<Row>, k: Key)
    requires log <= log' && Journal.UniqueKeys(log') && Journal.HasKey(log, k)
    ensures forall i :: |log| <= i < |log'| ==> log'[i].key != Some(k)
  {
    var j :| 0 <= j < |log| && log[j].key == Some(k);
    assert log'[j] == log[j];
  }

  // ---------------------------------------------------------------------------
  // When a request is granted, read off the journal
  // ---------------------------------------------------------------------------

  /** Row j is the extension's last authorization or revocation. */
  ghost predicate Decisive(log: seq<Row>, extension: nat, j: nat) {
    && j < |log| && log[j].workload == extension && (log[j].record.Authorized? || log[j].record.Revoked?)
    && forall i :: j < i < |log| && log[i].workload == extension ==> !log[i].record.Authorized? && !log[i].record.Revoked?
  }

  ghost predicate Asked(x: Extension, c: nat) {
    exists k :: 0 <= k < |x.requests| && x.requests[k].capability == c
  }

  /** The approvals are distinct, each was asked for, and row i is the admission the request quotes, of this very extension. */
  ghost predicate Approvable(log: seq<Row>, x: Extension, receipt: Receipt, approved: seq<nat>, i: nat) {
    && (forall j, k :: 0 <= j < k < |approved| ==> approved[j] != approved[k]) && (forall c :: c in approved ==> Asked(x, c))
    && i < |log| && log[i].workload == x.id && log[i].record.Admitted? && log[i].record.decision.receipt == receipt
    && receipt == AdmissionReceipt(x, log[i].record.actor)
  }

  /** Row j is in force and grants the execution: receipt, digest, capability, scope and executor. */
  ghost predicate Permits(log: seq<Row>, e: Execution, j: nat) {
    && Decisive(log, e.extension, j) && log[j].record.Authorized?
    && var d := log[j].record.decision;
       && d.receipt == e.authorization && d.digest == e.digest && e.capability in d.granted
       && (forall i :: 0 <= i < |e.scope| ==> e.capability in d.scopes && e.scope[i] in d.scopes[e.capability])
       && (d.executor.Some? ==> e.executor == d.executor)
  }

  /** Row v is a revocation journaled under this very key. */
  ghost predicate RevokedBefore(log: seq<Row>, m: Envelope, v: nat)
    requires m.request.Revoke?
  {
    && v < |log| && log[v].workload == m.request.extension && log[v].record.Revoked?
    && log[v].key == Some(RevokeKey(m.request.extension, m.request.digest, m.token))
  }

  /** Row j is in force and is the authorization that the revocation names. */
  ghost predicate Revocable(log: seq<Row>, m: Envelope, j: nat)
    requires m.request.Revoke?
  {
    && Decisive(log, m.request.extension, j) && log[j].record.Authorized?
    && log[j].record.decision.receipt == m.request.authorization && log[j].record.decision.digest == m.request.digest
  }

  /** The decision repeats what the extension asks for, capability by capability, and grants exactly these. */
  ghost predicate Certifies(d: Decision, x: Extension, granted: seq<nat>, receipt: Receipt) {
    && d.extension == x.id && d.digest == x.digest && d.granted == granted && d.executor == x.executor && d.receipt == receipt
    && |d.requested| == |x.requests| && (forall k :: 0 <= k < |x.requests| ==> d.requested[k] == x.requests[k].capability)
    && (forall c :: c in d.scopes <==> Asked(x, c))
    && (forall k :: 0 <= k < |x.requests| && AskedLast(x, k) ==> d.scopes[x.requests[k].capability] == x.requests[k].scope)
  }

  ghost predicate AskedLast(x: Extension, k: nat)
    requires k < |x.requests|
  {
    forall i :: k < i < |x.requests| ==> x.requests[i].capability != x.requests[k].capability
  }

  /** What is journaled for a request, and when. */
  ghost predicate Answered(log: seq<Row>, m: Envelope, o: Outcome) {
    match m.request
    case Admit(x, wellFormed) =>
      && (o.Journaled? <==> wellFormed) && !o.Replayed?
      && (o.Journaled? ==>
            && o.row.workload == x.id && o.row.key == Some(AdmitKey(x.id, x.digest, m.token))
            && o.row.record.Admitted? && o.row.record.actor == m.principal && Certifies(o.row.record.decision, x, [], AdmissionReceipt(x, m.principal)))
    case Authorize(x, wellFormed, receipt, approval, approved) =>
      && (o.Journaled? <==> wellFormed && exists i: nat :: Approvable(log, x, receipt, approved, i)) && !o.Replayed?
      && (o.Journaled? ==>
            && o.row.workload == x.id && o.row.key == Some(AuthorizeKey(x.id, x.digest, approval))
            && o.row.record.Authorized? && o.row.record.actor == m.principal
            && Certifies(o.row.record.decision, x, approved, AuthorizationReceipt(receipt, approval, approved, x.digest)))
    case Execute(e, wellFormed) =>
      && (o.Journaled? <==> wellFormed && exists j: nat :: Permits(log, e, j)) && !o.Replayed?
      && (o.Journaled? ==> o.row == Journal.Entry(e.extension, Some(ExecuteKey(e.extension, e.digest, m.token)), Permitted(m.principal, e)))
    case Revoke(extension, digest, authorization, reason, wellFormed) =>
      && (o.Replayed? <==> wellFormed && exists v: nat :: RevokedBefore(log, m, v))
      && (o.Journaled? <==> wellFormed && !(exists v: nat :: RevokedBefore(log, m, v)) && exists j: nat :: Revocable(log, m, j))
      && (o.Replayed? ==> exists v: nat :: RevokedBefore(log, m, v) && o.decision == log[v].record.decision)
      && (o.Journaled? ==> exists j: nat :: Revocable(log, m, j) && RevokesRow(log[j].record.decision, m, o.row))
  }

  /** The revocation keeps what was asked for and takes back what was granted. */
  ghost predicate RevokesRow(d: Decision, m: Envelope, row: Row)
    requires m.request.Revoke?
  {
    var q := m.request;
    row == Journal.Entry(q.extension, Some(RevokeKey(q.extension, q.digest, m.token)),
                         Revoked(m.principal, Decision(q.extension, q.digest, d.requested, [], d.executor, d.scopes,
                                                       RevocationReceipt(q.authorization, q.digest, m.principal, q.reason))))
  }

  lemma NamesAre(x: Extension, c: nat)
    ensures c in Names(x.requests) <==> Asked(x, c)
  {
    if Asked(x, c) {
      var k :| 0 <= k < |x.requests| && x.requests[k].capability == c;
      assert Names(x.requests)[k] == c;
    }
  }

  lemma {:induction false} ScopesAre(requests: seq<CapabilityRequest>, c: nat)
    ensures c in Scopes(requests) <==> c in Names(requests)
  {
    if requests != [] {
      var n := |requests| - 1;
      ScopesAre(requests[..n], c);
      assert Names(requests) == Names(requests[..n]) + [requests[n].capability];
    }
  }

  lemma DecisionCertifies(x: Extension, granted: seq<nat>, receipt: Receipt)
    ensures Certifies(Decision(x.id, x.digest, Names(x.requests), granted, x.executor, Scopes(x.requests), receipt), x, granted, receipt)
  {
    forall c ensures c in Scopes(x.requests) <==> Asked(x, c) {
      ScopesAre(x.requests, c);
      NamesAre(x, c);
    }
    forall k | 0 <= k < |x.requests| && AskedLast(x, k) ensures Scopes(x.requests)[x.requests[k].capability] == x.requests[k].scope {
      assert Names(x.requests)[k] == x.requests[k].capability;
      var m := ScopeOf(x.requests, x.requests[k].capability);
    }
  }

  lemma LatestIsDecisive(log: seq<Row>, extension: nat)
    ensures var at := LatestDecision(log, extension);
            (at.Some? ==> Decisive(log, extension, at.value)) && forall j: nat :: Decisive(log, extension, j) ==> at == Some(j)
  {
    var at := LatestDecision(log, extension);
    forall j: nat | Decisive(log, extension, j) ensures at == Some(j) {
      assert IsDecision(log[j], extension);
    }
  }

  lemma AuthorizeIff(s: State, m: Envelope)
    requires Inv(s) && m.request.Authorize?
    ensures Answered(s.log, m, Decide(s.log, m))
  {
    var q := m.request;
    var x := q.admission;
    forall c ensures c in Names(x.requests) <==> Asked(x, c) {
      NamesAre(x, c);
    }
    var at := LatestAdmission(s.log, x.id, q.receipt);
    if at.Some? {
      AdmittedMeans(s, at.value);
    }
    if exists i: nat :: Approvable(s.log, x, q.receipt, q.approved, i) {
      var i: nat :| Approvable(s.log, x, q.receipt, q.approved, i);
      assert IsAdmission(s.log[i], x.id, q.receipt);
      AdmittedMeans(s, i);
    }
    DecisionCertifies(x, q.approved, AuthorizationReceipt(q.receipt, q.approval, q.approved, x.digest));
    if Decide(s.log, m).Journaled? {
      assert Approvable(s.log, x, q.receipt, q.approved, at.value);
    }
  }

  lemma ExecuteIff(s: State, m: Envelope)
    requires Inv(s) && m.request.Execute?
    ensures Answered(s.log, m, Decide(s.log, m))
  {
    var e := m.request.execution;
    LatestIsDecisive(s.log, e.extension);
    if Decide(s.log, m).Journaled? {
      var j := AnsweredPermit(s, m);
      assert Permits(s.log, e, j);
    }
    if exists j: nat :: Permits(s.log, e, j) {
      var j: nat :| Permits(s.log, e, j);
      var i := AuthorizedMeans(s, j);
    }
  }

  lemma RevokeIff(s: State, m: Envelope)
    requires Inv(s) && m.request.Revoke?
    ensures Answered(s.log, m, Decide(s.log, m))
  {
    var q := m.request;
    LatestIsDecisive(s.log, q.extension);
    ReplayIff(s.log, m);
    var at := LatestDecision(s.log, q.extension);
    if exists j: nat :: Revocable(s.log, m, j) {
      var j: nat :| Revocable(s.log, m, j);
      var i := AuthorizedMeans(s, j);
    }
    if Decide(s.log, m).Journaled? {
      assert Revocable(s.log, m, at.value) && RevokesRow(s.log[at.value].record.decision, m, Decide(s.log, m).row);
    }
  }

  lemma {:induction false} ReplayIff(log: seq<Row>, m: Envelope)
    requires m.request.Revoke?
    ensures var at := LatestRevocation(log, m.request.extension, RevokeKey(m.request.extension, m.request.digest, m.token));
            (at.Some? ==> RevokedBefore(log, m, at.value)) && (at.None? ==> forall v: nat :: !RevokedBefore(log, m, v))
  {
    if log != [] {
      ReplayIff(log[..|log| - 1], m);
      forall v: nat | v < |log| - 1 && RevokedBefore(log, m, v) ensures RevokedBefore(log[..|log| - 1], m, v) {}
    }
  }

  /** The handlers decide as the journal and the request prescribe. */
  lemma DecidedAsPrescribed(s: State, m: Envelope)
    requires Inv(s)
    ensures Answered(s.log, m, Decide(s.log, m))
  {
    match m.request
    case Admit(x, _) => DecisionCertifies(x, [], AdmissionReceipt(x, m.principal));
    case Authorize(_, _, _, _, _) => AuthorizeIff(s, m);
    case Execute(_, _) => ExecuteIff(s, m);
    case Revoke(_, _, _, _, _) => RevokeIff(s, m);
  }

  class Daemon {
    var state: State

    ghost predicate Valid()
      reads this
    {
      Inv(state)
    }

    constructor ()
      ensures Valid() && state == State([], [], map[])
    {
      state := State([], [], map[]);
    }

    /** Any number of steps of other handlers. */
    method Interfere(mine: nat)
      requires Valid()
      modifies this
      ensures Valid() && old(state.log) <= state.log
      ensures mine in state.pending <==> mine in old(state.pending)
      ensures mine in state.pending ==> state.pending[mine] == old(state.pending)[mine]
    {
      var steps: nat := *;
      while steps > 0
        invariant Valid() && old(state.log) <= state.log
        invariant mine in state.pending <==> mine in old(state.pending)
        invariant mine in state.pending ==> state.pending[mine] == old(state.pending)[mine]
      {
        var h: nat := *;
        var m: Envelope := *;
        if h != mine {
          var a := if h in state.pending then Write(h) else Read(h, m);
          StepKeepsInv(state, a);
          state := Do(state, a);
        }
        steps := steps - 1;
      }
    }

    /**
     One request: decided on the journal as read, then appended after whatever
     others did in between. The answer is the decision even when its key was
     taken and the append changed nothing.
     */
    method Handle(h: nat, m: Envelope) returns (o: Outcome)
      requires Valid() && h !in state.pending
      modifies this
      ensures Valid() && old(state.log) <= state.log && h !in state.pending
      ensures o == Decide(old(state.log), m) && Answered(old(state.log), m, o)
      ensures !o.Journaled? ==> state == old(state)
      ensures o.Journaled? && o.row.key.Some? ==> Journal.HasKey(state.log, o.row.key.value)
      ensures o.Journaled? && m.request.Authorize? ==> o.row.key == Some(AuthorizeKey(m.request.admission.id, m.request.admission.digest, m.request.approval))
      ensures o.Journaled? && o.row.key.Some? && Journal.HasKey(old(state.log), o.row.key.value) ==>
                forall i :: |old(state.log)| <= i < |state.log| ==> state.log[i].key != o.row.key
      ensures o.Journaled? && m.request.Execute? ==>
                exists j: nat :: LatestDecision(old(state.log), m.request.execution.extension) == Some(j) && j < |old(state.log)|
                                 && old(state.log)[j].record.Authorized? && Grants(old(state.log)[j].record.decision, m.request.execution)
    {
      o := Decide(state.log, m);
      DecidedAsPrescribed(state, m);
      ghost var before := state.log;
      if o.Journaled? {
        if m.request.Execute? {
          var j := AnsweredPermit(state, m);
        }
        StepKeepsInv(state, Read(h, m));
        state := Do(state, Read(h, m));
        Interfere(h);
        StepKeepsInv(state, Write(h));
        state := Do(state, Write(h));
        if o.row.key.Some? && Journal.HasKey(before, o.row.key.value) {
          UsedKeyAddsNothing(before, state.log, o.row.key.value);
        }
      }
    }
  }
}
