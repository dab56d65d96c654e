/** Whole runs of one account: what every reachable state satisfies, and where commits come from. */
module Runs {
  import opened Wrappers
  import opened Errors
  import opened Sequences
  import opened Keys
  import opened Plog
  import opened EntryUpdate
  import opened Delegations
  import opened Account

  datatype Action =
    | PrepareUpdate(req: EntryUpdateRequest, id: string, now: nat, createdAt: nat)
    | PrepareDelegate(path: string, pubkey: string, id: string, now: nat, createdAt: nat)
    | PrepareRevoke(path: string, id: string, now: nat, createdAt: nat)
    | Commit(id: string, signature: string, now: nat)
    | Cancel(id: string, now: nat)
  {
    predicate IsPrepare() {
      PrepareUpdate? || PrepareDelegate? || PrepareRevoke?
    }
  }

  datatype Outcome =
    | Offered(challenge: UpdateChallenge)
    | Appended(committed: Committed)
    | Cancelled
    | Rejected(error: Error)

  function Step(lib: Library, st: AccountState, a: Action): (Outcome, AccountState) {
    match a
    case PrepareUpdate(req, id, now, at) => Offer(AfterPrepareUpdate(lib, st, req, id, now, at))
    case PrepareDelegate(path, pubkey, id, now, at) => Offer(AfterPrepareDelegate(lib, st, path, pubkey, id, now, at))
    case PrepareRevoke(path, id, now, at) => Offer(AfterPrepareRevoke(lib, st, path, id, now, at))
    case Commit(id, signature, now) =>
      (match AfterCommit(lib, st, id, signature, now)
       case (Success(c), st') => (Appended(c), st')
       case (Failure(e), st') => (Rejected(e), st'))
    case Cancel(id, now) =>
      match AfterCancel(st, id, now)
      case (Success(_), st') => (Cancelled, st')
      case (Failure(e), st') => (Rejected(e), st')
  }

  function Offer(p: (Result<UpdateChallenge, Error>, AccountState)): (Outcome, AccountState) {
    match p.0
    case Success(c) => (Offered(c), p.1)
    case Failure(e) => (Rejected(e), p.1)
  }

  function After(lib: Library, st: AccountState, acts: seq<Action>): AccountState {
    if acts == [] then st else Step(lib, After(lib, st, Init(acts)), Last(acts)).1
  }

  /** Outcome of the `i`-th action of a run. */
  function OutcomeAt(lib: Library, st: AccountState, acts: seq<Action>, i: nat): Outcome
    requires i < |acts|
  {
    Step(lib, After(lib, st, acts[..i]), acts[i]).0
  }

  lemma AfterStep(lib: Library, st: AccountState, acts: seq<Action>, i: nat)
    requires i < |acts|
    ensures After(lib, st, acts[..i + 1]) == Step(lib, After(lib, st, acts[..i]), acts[i]).1
  {
    TakeSnoc(acts, i);
  }

  // ----- the invariant -----

  lemma StepKeepsInv(lib: Library, st: AccountState, a: Action)
    requires LipmaaLaw(lib) && AccountInv(lib, st)
    ensures AccountInv(lib, Step(lib, st, a).1)
  {
    match a
    case PrepareUpdate(req, id, now, at) =>
      if UpdateSpec(lib, req).Success? {
        PrepareKeepsInv(lib, st, UpdateSpec(lib, req).value, id, now, at);
      }
    case PrepareDelegate(path, pubkey, id, now, at) =>
      if DelegateSpec(lib, st.log, path, pubkey).Success? {
        PrepareKeepsInv(lib, st, DelegateSpec(lib, st.log, path, pubkey).value, id, now, at);
      }
    case PrepareRevoke(path, id, now, at) =>
      if RevokeSpec(lib, st.log, path).Success? {
        PrepareKeepsInv(lib, st, RevokeSpec(lib, st.log, path).value, id, now, at);
      }
    case Commit(id, signature, now) => CommitKeepsInv(lib, st, id, signature, now);
    case Cancel(id, now) => CancelKeepsInv(lib, st, id, now);
  }

  /** In every reachable state the log verifies and every pending challenge is built on the head. */
  lemma {:induction false} ReachableInv(lib: Library, st: AccountState, acts: seq<Action>)
    requires LipmaaLaw(lib) && AccountInv(lib, st)
    ensures AccountInv(lib, After(lib, st, acts))
  {
    if acts != [] {
      ReachableInv(lib, st, Init(acts));
      StepKeepsInv(lib, After(lib, st, Init(acts)), Last(acts));
    }
  }

  /** What a prepare asks for, once its request has been converted. */
  function SpecOf(lib: Library, log: Log, a: Action): Result<PrepareSpec, Error>
    requires a.IsPrepare()
  {
    match a
    case PrepareUpdate(req, _, _, _) => UpdateSpec(lib, req)
    case PrepareDelegate(path, pubkey, _, _, _) => DelegateSpec(lib, log, path, pubkey)
    case PrepareRevoke(path, _, _, _) => RevokeSpec(lib, log, path)
  }

  /** The op names a key, and its bytes decode if it carries any. */
  predicate OpInOrder(lib: Library, op: PlogOp) {
    && op.key != "" && op.key[0] == '/'
    && (op.UpdateAt? && op.value.DataPayload? ==> lib.decodeBytes(op.value.multibase).Some?)
  }

  lemma OpInOrderConverts(lib: Library, op: PlogOp)
    ensures OpInOrder(lib, op) <==> IntoOpParams(lib, op).Success?
  {
  }

  /** The request of a prepare is in order, whatever the account. */
  predicate WellFormed(lib: Library, a: Action)
    requires a.IsPrepare()
  {
    match a
    case PrepareUpdate(req, _, _, _) =>
      && (req.signAs.Some? ==> IsKey(req.signAs.value))
      && (forall i :: 0 <= i < |req.ops| ==> OpInOrder(lib, req.ops[i]))
      && LocksConvert(req.locks)
    case PrepareDelegate(path, pubkey, _, _, _) => IsDelegable(path) && lib.decodeMultikey(pubkey).Some?
    case PrepareRevoke(path, _, _, _) => IsDelegable(path)
  }

  lemma SpecOfWellFormed(lib: Library, log: Log, a: Action)
    requires Verified(lib, log) && a.IsPrepare()
    ensures var spec := SpecOf(lib, log, a);
      && (spec.Success? ==> Resolved(spec.value.ops))
      && (WellFormed(lib, a) <==> spec.Success? && LocksConvert(spec.value.locks))
      && (spec.Failure? ==> spec.error == InvalidOp || spec.error == Encoding)
  {
    hide Verified, Grants, SigningKey, KvpOf, DelegatedLockCode;
    if a.PrepareUpdate? {
      UpdateWellFormed(lib, log, a);
    }
  }

  lemma UpdateWellFormed(lib: Library, log: Log, a: Action)
    requires a.PrepareUpdate?
    ensures var spec := UpdateSpec(lib, a.req);
      && (spec.Success? ==> Resolved(spec.value.ops))
      && (WellFormed(lib, a) <==> spec.Success? && LocksConvert(spec.value.locks))
      && (spec.Failure? ==> spec.error == InvalidOp || spec.error == Encoding)
  {
    hide LocksConvert, OpInOrder;
    forall i | 0 <= i < |a.req.ops| ensures OpInOrder(lib, a.req.ops[i]) <==> IntoOpParams(lib, a.req.ops[i]).Success? {
      OpInOrderConverts(lib, a.req.ops[i]);
    }
    if PlogOpsToParams(lib, a.req.ops).Failure? {
      var i := OpsFailure(lib, a.req.ops);
    }
  }

  /** Handed out less than 15 minutes before. */
  predicate InTime(now: nat, p: PendingUpdate) {
    now < p.createdAt + 900_000_000_000
  }

  predicate Live(s: AccountState, id: string, now: nat) {
    id in s.pending && InTime(now, s.pending[id])
  }

  /**
    The outcome of every action of every run. A prepare is offered iff its request is in order and the
    library can sign the entry, a commit and a cancel fail only for the challenge, the signature or the
    authorisation: nothing is ever rejected because the head moved or because the log fails to verify.
   */
  lemma EveryOutcome(lib: Library, st: AccountState, acts: seq<Action>, i: nat)
    requires LipmaaLaw(lib) && AccountInv(lib, st) && i < |acts|
    ensures var (s, a, o) := (After(lib, st, acts[..i]), acts[i], OutcomeAt(lib, st, acts, i));
      && s.log.entries != []
      && (a.IsPrepare() && WellFormed(lib, a) ==>
            var spec := SpecOf(lib, s.log, a);
            && spec.Success? && LocksConvert(spec.value.locks) && Resolved(spec.value.ops)
            && (o.Offered? <==> lib.signable(EntryToSign(lib, s.log, spec.value)))
            && (o.Offered? || o == Rejected(Error.Plog)))
      && (a.IsPrepare() && !WellFormed(lib, a) ==> o == Rejected(InvalidOp) || o == Rejected(Encoding))
      && (a.Commit? && o.Rejected? ==>
            o.error == if !Live(s, a.id, a.now) then ChallengeNotFound(a.id)
                       else if lib.decodeMultisig(a.signature).None? then Encoding else Error.Plog)
      && (a.Cancel? ==> o == if Live(s, a.id, a.now) then Cancelled else Rejected(ChallengeNotFound(a.id)))
  {
    ReachableInv(lib, st, acts[..i]);
    var s, a := After(lib, st, acts[..i]), acts[i];
    if a.IsPrepare() {
      PrepareStep(lib, s, a);
    } else if a.Commit? {
      CommitOutcome(lib, s, a.id, a.signature, a.now);
    }
  }

  lemma PrepareStep(lib: Library, s: AccountState, a: Action)
    requires LipmaaLaw(lib) && AccountInv(lib, s) && a.IsPrepare()
    ensures var (spec, o) := (SpecOf(lib, s.log, a), Step(lib, s, a).0);
      && s.log.entries != []
      && (WellFormed(lib, a) ==>
            && spec.Success? && LocksConvert(spec.value.locks) && Resolved(spec.value.ops)
            && (o.Offered? <==> lib.signable(EntryToSign(lib, s.log, spec.value)))
            && (o.Offered? || o == Rejected(Error.Plog)))
      && (!WellFormed(lib, a) ==> o == Rejected(InvalidOp) || o == Rejected(Encoding))
  {
    hide AfterPrepare, EntryToSign, WellFormed, UpdateSpec, DelegateSpec, RevokeSpec, LocksConvert, BuiltOnHead;
    var spec := SpecOf(lib, s.log, a);
    SpecOfWellFormed(lib, s.log, a);
    if spec.Success? {
      PrepareOutcome(lib, s, spec.value, a.id, a.now, a.createdAt);
    }
  }

  // ----- the log only grows, by one entry per successful commit -----

  function CommitCount(lib: Library, st: AccountState, acts: seq<Action>): nat {
    if acts == [] then 0
    else CommitCount(lib, st, Init(acts)) +
         if Step(lib, After(lib, st, Init(acts)), Last(acts)).0.Appended? then 1 else 0
  }

  lemma StepGrowth(lib: Library, st: AccountState, a: Action)
    requires AccountInv(lib, st)
    ensures var (o, st') := Step(lib, st, a);
      && st'.log == st.log.(entries := st'.log.entries)
      && st.log.entries <= st'.log.entries
      && |st'.log.entries| == |st.log.entries| + if o.Appended? then 1 else 0
  {
    hide AccountInv, AfterCommit, Prepared, UpdateSpec, DelegateSpec, RevokeSpec, Purge;
    if a.Commit? {
      CommitOutcome(lib, st, a.id, a.signature, a.now);
    }
  }

  /** Over any run the old entries stay a prefix, and there is one new entry per successful commit. */
  lemma {:induction false} LogGrowth(lib: Library, st: AccountState, acts: seq<Action>)
    requires LipmaaLaw(lib) && AccountInv(lib, st)
    ensures var st' := After(lib, st, acts);
      && st'.log.vlad == st.log.vlad && st'.log.firstLock == st.log.firstLock
      && st.log.entries <= st'.log.entries
      && |st'.log.entries| == |st.log.entries| + CommitCount(lib, st, acts)
  {
    if acts != [] {
      LogGrowth(lib, st, Init(acts));
      ReachableInv(lib, st, Init(acts));
      StepGrowth(lib, After(lib, st, Init(acts)), Last(acts));
    }
  }

  /** Chain shape over runs: every entry of a reachable log is linked to its predecessors. */
  lemma ReachableChain(lib: Library, st: AccountState, acts: seq<Action>, i: nat)
    requires LipmaaLaw(lib) && AccountInv(lib, st)
    requires i < |After(lib, st, acts).log.entries|
    ensures ChainedAt(lib, After(lib, st, acts).log, i)
    ensures After(lib, st, acts).log.entries[i].vlad == st.log.vlad
  {
    ReachableInv(lib, st, acts);
    LogGrowth(lib, st, acts);
    ChainShape(lib, After(lib, st, acts).log, i);
  }

  // ----- where a commit comes from -----

  /** In state `st`, action `a` is the prepare that hands out challenge `id` in the form `p`. */
  predicate HandsOut(lib: Library, st: AccountState, a: Action, id: string, p: PendingUpdate) {
    var (o, after) := Step(lib, st, a);
    && a.IsPrepare() && a.id == id && a.createdAt == p.createdAt
    && o.Offered? && o.challenge.challengeId == id
    && o.challenge.kind == p.kind && o.challenge.path == p.path
    && o.challenge.message == lib.encodeBytes(lib.entryBytes(p.unsigned.entry))
    && id in after.pending && after.pending[id] == p
  }

  predicate HandedOut(lib: Library, st: AccountState, acts: seq<Action>, i: nat, id: string, p: PendingUpdate)
    requires i < |acts|
  {
    HandsOut(lib, After(lib, st, acts[..i]), acts[i], id, p)
  }

  /** With outcome `o`, action `a` left challenge `id` alone: no commit succeeded and `id` was not used. */
  predicate LeavesAlone(a: Action, o: Outcome, id: string) {
    && !o.Appended?
    && !((a.Commit? || a.Cancel?) && a.id == id)
    && !(o.Offered? && a.id == id)
  }

  predicate Undisturbed(lib: Library, st: AccountState, acts: seq<Action>, i: nat, id: string) {
    forall k :: i < k < |acts| ==> LeavesAlone(acts[k], OutcomeAt(lib, st, acts, k), id)
  }

  lemma PreparePending(lib: Library, st: AccountState, spec: PrepareSpec, newId: string, now: nat, at: nat, id: string)
    requires LipmaaLaw(lib) && AccountInv(lib, st)
    requires id in AfterPrepare(lib, st, spec, newId, now, at).1.pending
    ensures var (r, st') := AfterPrepare(lib, st, spec, newId, now, at);
      if r.Success? && id == newId then
        && r.value.message == lib.encodeBytes(lib.entryBytes(st'.pending[id].unsigned.entry))
        && r.value.kind == st'.pending[id].kind && r.value.path == st'.pending[id].path
        && r.value.challengeId == id && st'.pending[id].createdAt == at
      else id in st.pending && st'.pending[id] == st.pending[id]
  {
  }

  /** What one action can leave pending: the challenge it handed out, or one that it left alone. */
  lemma StepPending(lib: Library, st: AccountState, a: Action, id: string)
    requires LipmaaLaw(lib) && AccountInv(lib, st)
    requires id in Step(lib, st, a).1.pending
    ensures var (o, st') := Step(lib, st, a);
      || HandsOut(lib, st, a, id, st'.pending[id])
      || (id in st.pending && st'.pending[id] == st.pending[id] && LeavesAlone(a, o, id))
  {
    hide AfterPrepare, BuiltOnHead, StepOk;
    match a
    case PrepareUpdate(req, newId, now, at) =>
      if UpdateSpec(lib, req).Success? {
        PreparePending(lib, st, UpdateSpec(lib, req).value, newId, now, at, id);
      }
    case PrepareDelegate(path, pubkey, newId, now, at) =>
      if DelegateSpec(lib, st.log, path, pubkey).Success? {
        PreparePending(lib, st, DelegateSpec(lib, st.log, path, pubkey).value, newId, now, at, id);
      }
    case PrepareRevoke(path, newId, now, at) =>
      if RevokeSpec(lib, st.log, path).Success? {
        PreparePending(lib, st, RevokeSpec(lib, st.log, path).value, newId, now, at, id);
      }
    case Commit(other, signature, now) => CommitOutcome(lib, st, other, signature, now);
    case Cancel(_, _) =>
  }

  /** Every pending challenge was handed out by one earlier prepare and left alone since. */
  lemma {:induction false} PendingProvenance(lib: Library, st: AccountState, acts: seq<Action>, id: string) returns (i: nat)
    requires LipmaaLaw(lib) && AccountInv(lib, st) && st.pending == map[]
    requires id in After(lib, st, acts).pending
    ensures i < |acts|
    ensures HandedOut(lib, st, acts, i, id, After(lib, st, acts).pending[id])
    ensures Undisturbed(lib, st, acts, i, id)
  {
    var n := |acts| - 1;
    var p := After(lib, st, acts).pending[id];
    ReachableInv(lib, st, acts[..n]);
    StepPending(lib, After(lib, st, acts[..n]), acts[n], id);
    if HandedOut(lib, st, acts, n, id, p) {
      i := n;
    } else {
      i := PendingProvenance(lib, st, acts[..n], id);
      assert acts[..n][..i] == acts[..i];
      UndisturbedSnoc(lib, st, acts, i, id);
    }
  }

  lemma UndisturbedSnoc(lib: Library, st: AccountState, acts: seq<Action>, i: nat, id: string)
    requires acts != [] && Undisturbed(lib, st, acts[..|acts| - 1], i, id)
    requires LeavesAlone(acts[|acts| - 1], OutcomeAt(lib, st, acts, |acts| - 1), id)
    ensures Undisturbed(lib, st, acts, i, id)
  {
    var n := |acts| - 1;
    forall k | i < k <= n ensures LeavesAlone(acts[k], OutcomeAt(lib, st, acts, k), id) {
      if k < n {
        assert acts[..n][..k] == acts[..k];
        assert LeavesAlone(acts[..n][k], OutcomeAt(lib, st, acts[..n], k), id);
      }
    }
  }

  /** A challenge has at most one prepare behind it that was left alone since. */
  lemma OnePrepare(lib: Library, st: AccountState, acts: seq<Action>, j: nat, i: nat, k: nat, id: string,
                   p: PendingUpdate, q: PendingUpdate)
    requires i < j <= |acts| && k < j
    requires HandedOut(lib, st, acts, i, id, p) && Undisturbed(lib, st, acts[..j], i, id)
    requires HandedOut(lib, st, acts, k, id, q) && Undisturbed(lib, st, acts[..j], k, id)
    ensures i == k
  {
    hide Step;
    assert acts[..j][..i] == acts[..i] && acts[..j][..k] == acts[..k];
  }

  /**
    Commit safety. A successful commit at step `j` belongs to exactly one earlier prepare of that
    challenge id, handed out less than 15 minutes before, neither cancelled nor tried since, with no
    other commit in between; the entry appended is the one whose bytes were handed out, plus the proof,
    and the kind and path reported are those of that prepare.
   */
  lemma CommitSafety(lib: Library, st: AccountState, acts: seq<Action>, j: nat) returns (i: nat, p: PendingUpdate)
    requires LipmaaLaw(lib) && AccountInv(lib, st) && st.pending == map[]
    requires j < |acts| && acts[j].Commit? && OutcomeAt(lib, st, acts, j).Appended?
    ensures i < j
    ensures HandedOut(lib, st, acts, i, acts[j].id, p)
    ensures Undisturbed(lib, st, acts[..j], i, acts[j].id)
    ensures forall k: nat, q: PendingUpdate ::
      k < j && HandedOut(lib, st, acts, k, acts[j].id, q) && Undisturbed(lib, st, acts[..j], k, acts[j].id) ==> k == i
    ensures InTime(acts[j].now, p) && p.createdAt == acts[i].createdAt
    ensures acts[j].id in After(lib, st, acts[..j]).pending && p == After(lib, st, acts[..j]).pending[acts[j].id]
    ensures OutcomeAt(lib, st, acts, j).committed.kind == p.kind
    ensures OutcomeAt(lib, st, acts, j).committed.path == p.path
    ensures lib.decodeMultisig(acts[j].signature).Some? && p.unsigned.entry.proof == []
    ensures After(lib, st, acts[..j + 1]).log ==
            (var log := After(lib, st, acts[..j]).log;
             log.(entries := log.entries +
                             [p.unsigned.entry.(proof := lib.decodeMultisig(acts[j].signature).value)]))
    ensures After(lib, st, acts[..j + 1]).pending == map[]
  {
    hide HandedOut, LeavesAlone;
    var before, id := After(lib, st, acts[..j]), acts[j].id;
    ReachableInv(lib, st, acts[..j]);
    CommitOutcome(lib, before, id, acts[j].signature, acts[j].now);
    AfterStep(lib, st, acts, j);
    p := before.pending[id];
    i := PendingProvenance(lib, st, acts[..j], id);
    PrefixHandedOut(lib, st, acts, j, i, id, p);
    forall k: nat, q | k < j && HandedOut(lib, st, acts, k, id, q) && Undisturbed(lib, st, acts[..j], k, id)
      ensures k == i
    {
      OnePrepare(lib, st, acts, j, i, k, id, p, q);
    }
  }

  lemma PrefixHandedOut(lib: Library, st: AccountState, acts: seq<Action>, j: nat, i: nat, id: string, p: PendingUpdate)
    requires i < j <= |acts|
    ensures HandedOut(lib, st, acts[..j], i, id, p) == HandedOut(lib, st, acts, i, id, p)
    ensures HandedOut(lib, st, acts, i, id, p) ==> acts[i].IsPrepare() && acts[i].createdAt == p.createdAt
  {
    assert acts[..j][..i] == acts[..i];
  }

  /** From a prepare to the commit of its challenge the log stays as it was. */
  lemma {:induction false} LogUntouched(lib: Library, st: AccountState, acts: seq<Action>, i: nat, id: string)
    requires LipmaaLaw(lib) && AccountInv(lib, st)
    requires i < |acts| && !OutcomeAt(lib, st, acts, i).Appended? && Undisturbed(lib, st, acts, i, id)
    ensures After(lib, st, acts).log == After(lib, st, acts[..i]).log
  {
    hide Step, AccountInv;
    var n := |acts| - 1;
    ReachableInv(lib, st, acts[..n]);
    assert !OutcomeAt(lib, st, acts, n).Appended?;
    StepGrowth(lib, After(lib, st, acts[..n]), acts[n]);
    if i < n {
      forall k | i <= k < n ensures OutcomeAt(lib, st, acts[..n], k) == OutcomeAt(lib, st, acts, k) {
        assert acts[..n][..k] == acts[..k];
      }
      LogUntouched(lib, st, acts[..n], i, id);
      assert acts[..n][..i] == acts[..i];
    }
  }

  // ----- what is handed out stays, until it is used or expires -----

  lemma PrepareKeepsPending(lib: Library, st: AccountState, spec: PrepareSpec, newId: string, now: nat, at: nat, id: string)
    requires Live(st, id, now) && (id != newId || Prepared(lib, st.log, spec).Failure?)
    ensures var st' := AfterPrepare(lib, st, spec, newId, now, at).1;
      id in st'.pending && st'.pending[id] == st.pending[id]
  {
    hide Prepared;
  }

  /** An action that leaves a live challenge alone leaves it pending. */
  lemma StepKeepsPending(lib: Library, st: AccountState, a: Action, id: string)
    requires AccountInv(lib, st) && Live(st, id, a.now) && LeavesAlone(a, Step(lib, st, a).0, id)
    ensures id in Step(lib, st, a).1.pending && Step(lib, st, a).1.pending[id] == st.pending[id]
  {
    hide Prepared, UpdateSpec, DelegateSpec, RevokeSpec, BuiltOnHead, Verified;
    if a.IsPrepare() {
      var spec := SpecOf(lib, st.log, a);
      if spec.Success? {
        PrepareKeepsPending(lib, st, spec.value, a.id, a.now, a.createdAt, id);
      }
    } else if a.Commit? {
      CommitOutcome(lib, st, a.id, a.signature, a.now);
    }
  }

  /** No action after step `i` comes too late for the challenge `p`. */
  predicate AllInTime(acts: seq<Action>, i: nat, p: PendingUpdate) {
    forall k :: i < k < |acts| ==> InTime(acts[k].now, p)
  }

  /**
    The converse of provenance: what a prepare handed out is still pending, as it was handed out, as long
    as it is neither used nor expired and no commit succeeds, whatever else is prepared or cancelled.
   */
  lemma {:induction false} HandedOutStays(lib: Library, st: AccountState, acts: seq<Action>, i: nat, id: string,
                                          p: PendingUpdate)
    requires LipmaaLaw(lib) && AccountInv(lib, st) && i < |acts|
    requires HandedOut(lib, st, acts, i, id, p) && Undisturbed(lib, st, acts, i, id) && AllInTime(acts, i, p)
    ensures id in After(lib, st, acts).pending && After(lib, st, acts).pending[id] == p
  {
    hide Step, AccountInv, InTime;
    var n := |acts| - 1;
    assert acts[..n] == Init(acts);
    if i < n {
      ReachableInv(lib, st, acts[..n]);
      assert acts[..n][..i] == acts[..i];
      forall k | i < k < n ensures LeavesAlone(acts[..n][k], OutcomeAt(lib, st, acts[..n], k), id) {
        assert acts[..n][..k] == acts[..k];
        assert LeavesAlone(acts[k], OutcomeAt(lib, st, acts, k), id);
      }
      HandedOutStays(lib, st, acts[..n], i, id, p);
      assert LeavesAlone(acts[n], OutcomeAt(lib, st, acts, n), id);
      StepKeepsPending(lib, After(lib, st, acts[..n]), acts[n], id);
    }
  }

  /** The signature completes the challenge to an entry that the library builds and the head's locks authorise. */
  predicate Accepts(lib: Library, s: AccountState, p: PendingUpdate, signature: string) {
    lib.decodeMultisig(signature).Some? &&
    var e := p.unsigned.entry.(proof := lib.decodeMultisig(signature).value);
    lib.buildable(e) && s.log.entries != [] && lib.authorised(Last(s.log.entries).locks, KvpOf(s.log.entries), e)
  }

  /** A commit of a challenge that was left alone and is in time appends iff the signature is accepted. */
  lemma LiveChallengeCommits(lib: Library, st: AccountState, acts: seq<Action>, i: nat, j: nat, p: PendingUpdate)
    requires LipmaaLaw(lib) && AccountInv(lib, st) && i < j < |acts| && acts[j].Commit?
    requires HandedOut(lib, st, acts, i, acts[j].id, p) && Undisturbed(lib, st, acts[..j], i, acts[j].id)
    requires AllInTime(acts[..j + 1], i, p)
    ensures OutcomeAt(lib, st, acts, j).Appended? <==> Accepts(lib, After(lib, st, acts[..j]), p, acts[j].signature)
  {
    hide HandedOut, Undisturbed;
    PrefixHandedOut(lib, st, acts, j, i, acts[j].id, p);
    forall k | i < k < j ensures InTime(acts[..j][k].now, p) {
      assert InTime(acts[..j + 1][k].now, p);
    }
    assert InTime(acts[..j + 1][j].now, p);
    HandedOutStays(lib, st, acts[..j], i, acts[j].id, p);
    ReachableInv(lib, st, acts[..j]);
    CommitOutcome(lib, After(lib, st, acts[..j]), acts[j].id, acts[j].signature, acts[j].now);
  }

  /** The clock does not run backwards. */
  predicate Monotone(acts: seq<Action>) {
    forall k, l :: 0 <= k <= l < |acts| ==> acts[k].now <= acts[l].now
  }

  /** The prepare at step `i` handed out `p`, which the commit at step `j` may redeem. */
  predicate Redeems(lib: Library, st: AccountState, acts: seq<Action>, i: nat, j: nat, p: PendingUpdate)
    requires j < |acts| && acts[j].Commit?
  {
    && i < j && HandedOut(lib, st, acts, i, acts[j].id, p) && Undisturbed(lib, st, acts[..j], i, acts[j].id)
    && InTime(acts[j].now, p) && Accepts(lib, After(lib, st, acts[..j]), p, acts[j].signature)
  }

  lemma EarlierInTime(acts: seq<Action>, i: nat, j: nat, p: PendingUpdate)
    requires Monotone(acts) && j < |acts| && InTime(acts[j].now, p)
    ensures AllInTime(acts[..j + 1], i, p)
  {
    var upTo := acts[..j + 1];
    forall k | i < k < |upTo| ensures InTime(upTo[k].now, p) {
      assert acts[k].now <= acts[j].now;
    }
  }

  lemma CommitRedeems(lib: Library, st: AccountState, acts: seq<Action>, j: nat) returns (i: nat, p: PendingUpdate)
    requires LipmaaLaw(lib) && AccountInv(lib, st) && st.pending == map[]
    requires j < |acts| && acts[j].Commit? && OutcomeAt(lib, st, acts, j).Appended?
    ensures Redeems(lib, st, acts, i, j, p)
  {
    hide HandedOut, Undisturbed, Step, AccountInv;
    i, p := CommitSafety(lib, st, acts, j);
    ReachableInv(lib, st, acts[..j]);
    AppendedAccepts(lib, After(lib, st, acts[..j]), acts[j]);
  }

  lemma AppendedAccepts(lib: Library, s: AccountState, a: Action)
    requires AccountInv(lib, s) && a.Commit? && Step(lib, s, a).0.Appended?
    ensures a.id in s.pending && Accepts(lib, s, s.pending[a.id], a.signature)
  {
    CommitOutcome(lib, s, a.id, a.signature, a.now);
  }

  /**
    When a commit succeeds, over all runs of an account: iff some earlier prepare handed out the challenge
    less than 15 minutes before, it was neither cancelled nor tried since, no other commit succeeded in
    between, and the signature is accepted.
   */
  lemma CommitIff(lib: Library, st: AccountState, acts: seq<Action>, j: nat)
    requires LipmaaLaw(lib) && AccountInv(lib, st) && st.pending == map[]
    requires j < |acts| && acts[j].Commit? && Monotone(acts)
    ensures OutcomeAt(lib, st, acts, j).Appended? <==> exists i, p :: Redeems(lib, st, acts, i, j, p)
  {
    hide Step, AccountInv, HandedOut, Undisturbed, Accepts;
    if OutcomeAt(lib, st, acts, j).Appended? {
      var i, p := CommitRedeems(lib, st, acts, j);
    }
    if i, p :| Redeems(lib, st, acts, i, j, p) {
      EarlierInTime(acts, i, j, p);
      LiveChallengeCommits(lib, st, acts, i, j, p);
    }
  }
}
