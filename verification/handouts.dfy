/**
  What a prepare hands out to be signed, in terms of the request and the log alone: which key the
  challenge names, and which locks and ops the entry carries.
 */
module Handouts {
  import opened Wrappers
  import opened Errors
  import opened Sequences
  import opened Keys
  import opened Sorting
  import opened Plog
  import opened EntryUpdate
  import opened Delegations
  import opened Account
  import opened Runs

  // ----- the challenge -----

  /** `key` belongs to the closest delegated ancestor of `path`, or is the root's if there is none. */
  ghost predicate ClosestSigns(ds: seq<PathDelegation>, path: Key, key: string) {
    && (forall b :: IsClosest(ds, path, b) ==> key == b + "pubkey")
    && (Ancestors(ds, path) == {} ==> key == "/pubkey")
    && (Ancestors(ds, path) == {} || exists b :: IsClosest(ds, path, b))
  }

  lemma SigningKeyMeaning(ds: seq<PathDelegation>, path: Key)
    ensures ClosestSigns(ds, path, SigningKey(ds, path))
  {
    ClosestParentCorrect(ds, path);
    forall b | IsClosest(ds, path, b) ensures SigningKey(ds, path) == b + "pubkey" {
      ClosestIsUnique(ds, path, b);
    }
  }

  /** What a challenge tells the signer, given the account it was prepared on. */
  ghost predicate Tells(lib: Library, s: AccountState, a: Action, c: UpdateChallenge)
    requires s.log.entries != []
  {
    && c.challengeId == a.id
    && c.vlad == lib.encodeVlad(s.log.vlad)
    && c.headCid == lib.encodeCid(lib.cid(Last(s.log.entries)))
    && match a
       case PrepareUpdate(req, _, _, _) =>
         c.kind == EntryKind && c.path == None &&
         c.signingKeyPath == (if req.signAs.Some? then req.signAs.value else "/pubkey")
       case PrepareDelegate(path, _, _, _, _) =>
         c.kind == DelegateKind && c.path == Some(path) && ClosestSigns(Grants(lib, s.log), path, c.signingKeyPath)
       case PrepareRevoke(path, _, _, _) =>
         c.kind == RevokeKind && c.path == Some(path) && ClosestSigns(Grants(lib, s.log), path, c.signingKeyPath)
       case _ => false
  }

  lemma OfferTells(lib: Library, s: AccountState, a: Action)
    requires AccountInv(lib, s) && Step(lib, s, a).0.Offered?
    ensures Tells(lib, s, a, Step(lib, s, a).0.challenge)
  {
    hide Prepared, BuiltOnHead, ClosestSigns, Grants, SigningKey;
    if a.PrepareDelegate? || a.PrepareRevoke? {
      SigningKeyMeaning(Grants(lib, s.log), a.path);
    }
  }

  /** Every challenge of every run names the head, the account and the right signing key. */
  lemma EveryChallenge(lib: Library, st: AccountState, acts: seq<Action>, i: nat)
    requires LipmaaLaw(lib) && AccountInv(lib, st) && i < |acts| && OutcomeAt(lib, st, acts, i).Offered?
    ensures After(lib, st, acts[..i]).log.entries != []
    ensures Tells(lib, After(lib, st, acts[..i]), acts[i], OutcomeAt(lib, st, acts, i).challenge)
  {
    ReachableInv(lib, st, acts[..i]);
    OfferTells(lib, After(lib, st, acts[..i]), acts[i]);
  }

  // ----- the entry -----

  /** The locks a raw request asks for, given those of the head. */
  ghost predicate LocksAsked(head: seq<Script>, spec: LockSpec, locks: seq<Script>) {
    match spec
    case Keyword(_) => locks == head
    case Replace(scripts) =>
      |locks| == |scripts| &&
      forall i :: 0 <= i < |scripts| ==> locks[i] == Code(scripts[i].path, scripts[i].code)
    case Upsert(l) => exists kept :: OtherLocks(kept, head, l.path) && locks == kept + [Code(l.path, l.code)]
    case Remove(path) => OtherLocks(locks, head, path)
  }

  /** The op a raw request asks for. */
  predicate OpAsked(lib: Library, asked: PlogOp, op: Op) {
    match asked
    case NoopAt(k) => op == Op.Noop(k)
    case DeleteAt(k) => op == Op.Delete(k)
    case UpdateAt(k, StrPayload(s)) => op == Op.Update(k, Str(s))
    case UpdateAt(k, DataPayload(m)) => lib.decodeBytes(m).Some? && op == Op.Update(k, Data(lib.decodeBytes(m).value))
  }

  /** The part of a handed-out entry that no request chooses. */
  predicate OnTop(lib: Library, log: Log, e: Entry)
    requires log.entries != []
  {
    && e.version == 1 && e.vlad == log.vlad && e.seqno == |log.entries| && e.prev == Some(lib.cid(Last(log.entries)))
    && e.unlock == Code("/", "push(\"/entry/\"); push(\"/entry/proof\")") && e.proof == []
  }

  /** The entry does what the request says, on top of the head, and nothing else. */
  ghost predicate EntryAsked(lib: Library, log: Log, a: Action, e: Entry)
    requires log.entries != []
  {
    var head := Last(log.entries).locks;
    && OnTop(lib, log, e)
    && match a
       case PrepareUpdate(req, _, _, _) =>
         && LocksAsked(head, req.locks, e.locks)
         && |e.ops| == |req.ops| && forall i :: 0 <= i < |req.ops| ==> OpAsked(lib, req.ops[i], e.ops[i])
       case PrepareDelegate(path, pubkey, _, _, _) =>
         && (exists kept :: OtherLocks(kept, head, path) &&
               e.locks == kept + [Code(path, "check_signature(\"" + path + "pubkey\", \"/entry/\")")])
         && lib.decodeMultikey(pubkey).Some?
         && e.ops == [Op.Update(path + "pubkey", Data(lib.multikeyBytes(lib.decodeMultikey(pubkey).value)))]
       case PrepareRevoke(path, _, _, _) =>
         OtherLocks(e.locks, head, path) && e.ops == [Op.Delete(path + "pubkey")]
       case _ => false
  }

  lemma {:induction false} ScriptsMeaning(scripts: seq<LockScript>)
    requires LockScriptsFromJson(scripts).Success?
    ensures var r := LockScriptsFromJson(scripts).value;
      |r| == |scripts| && forall i :: 0 <= i < |scripts| ==> r[i] == Code(scripts[i].path, scripts[i].code)
  {
    if scripts != [] {
      ScriptsMeaning(Init(scripts));
      assert scripts == Init(scripts) + [Last(scripts)];
    }
  }

  /** Locks converted from a spec, or inherited, are those asked for. */
  lemma LocksMeaning(head: Entry, spec: LockSpec)
    requires LockSpecToScripts(head, spec).Success?
    ensures var r := LockSpecToScripts(head, spec).value;
      LocksAsked(head.locks, spec, if r.Some? then r.value else head.locks)
  {
    match spec
    case Keyword(_) =>
    case Replace(scripts) => ScriptsMeaning(scripts);
    case Upsert(l) => var kept := ReplacePathMeaning(head.locks, l.path, Some(Code(l.path, l.code)));
    case Remove(path) =>
      var kept := ReplacePathMeaning(head.locks, path, None);
      assert kept + [] == kept;
  }

  lemma OpMeaning(lib: Library, asked: PlogOp, param: OpParams, op: Op)
    requires IntoOpParams(lib, asked) == Success(param) && OpFromParams(lib, param) == Success(op)
    ensures OpAsked(lib, asked, op)
  {
  }

  /** The entry prepared for a spec. */
  lemma PreparedMeaning(lib: Library, log: Log, spec: PrepareSpec)
    requires Verified(lib, log) && Prepared(lib, log, spec).Success?
    ensures var u := Prepared(lib, log, spec).value;
      && u.message == lib.entryBytes(u.entry)
      && OnTop(lib, log, u.entry)
      && LocksAsked(Last(log.entries).locks, spec.locks, u.entry.locks)
      && OpsFromParams(lib, spec.ops) == Success(u.entry.ops)
  {
    LocksMeaning(Last(log.entries), spec.locks);
    SeqnoIsPosition(lib, log, |log.entries| - 1);
    OwnVlad(lib, log);
    hide Verified, LockSpecToScripts, LocksAsked, OpsFromParams, LongHop;
  }

  lemma OwnVlad(lib: Library, log: Log)
    requires Verified(lib, log)
    ensures Last(log.entries).vlad == log.vlad
  {
    var n := |log.entries| - 1;
    assert StepOk(lib, Prefix(log, n), log.entries[n]);
  }

  lemma UpdateEntry(lib: Library, log: Log, a: Action)
    requires Verified(lib, log) && a.PrepareUpdate? && UpdateSpec(lib, a.req).Success?
    requires Prepared(lib, log, UpdateSpec(lib, a.req).value).Success?
    ensures EntryAsked(lib, log, a, Prepared(lib, log, UpdateSpec(lib, a.req).value).value.entry)
  {
    var spec := UpdateSpec(lib, a.req).value;
    PreparedMeaning(lib, log, spec);
    var e := Prepared(lib, log, spec).value.entry;
    hide Verified, Prepared, OnTop, LocksAsked, OpAsked, IntoOpParams;
    forall i | 0 <= i < |a.req.ops| ensures OpAsked(lib, a.req.ops[i], e.ops[i]) {
      OpMeaning(lib, a.req.ops[i], spec.ops[i], e.ops[i]);
    }
  }

  lemma SugarEntries(lib: Library, log: Log, a: Action)
    requires Verified(lib, log) && (a.PrepareDelegate? || a.PrepareRevoke?) && SpecOf(lib, log, a).Success?
    requires Prepared(lib, log, SpecOf(lib, log, a).value).Success?
    ensures EntryAsked(lib, log, a, Prepared(lib, log, SpecOf(lib, log, a).value).value.entry)
  {
    var spec := SpecOf(lib, log, a).value;
    PreparedMeaning(lib, log, spec);
    hide Verified, Prepared, OnTop, Grants, SigningKey, OtherLocks;
    assert |spec.ops| == 1;
    assert OpFromParams(lib, spec.ops[0]) == Success(Prepared(lib, log, spec).value.entry.ops[0]);
  }

  /** What is pending after an offered prepare is an entry that does what was asked. */
  lemma OfferAsked(lib: Library, s: AccountState, a: Action)
    requires AccountInv(lib, s) && Step(lib, s, a).0.Offered?
    ensures s.log.entries != [] && a.IsPrepare() && a.id in Step(lib, s, a).1.pending
    ensures var (o, p) := (Step(lib, s, a).0, Step(lib, s, a).1.pending[a.id]);
      && EntryAsked(lib, s.log, a, p.unsigned.entry)
      && o.challenge.message == lib.encodeBytes(lib.entryBytes(p.unsigned.entry))
  {
    hide BuiltOnHead, Prepared, EntryAsked, Grants, SigningKey;
    var spec := SpecOf(lib, s.log, a);
    PreparedMeaning(lib, s.log, spec.value);
    if a.PrepareUpdate? {
      UpdateEntry(lib, s.log, a);
    } else {
      SugarEntries(lib, s.log, a);
    }
  }

  /** Every entry handed out in any run does what its request asked for, and its bytes are what is signed. */
  lemma EveryEntry(lib: Library, st: AccountState, acts: seq<Action>, i: nat)
    requires LipmaaLaw(lib) && AccountInv(lib, st) && i < |acts| && OutcomeAt(lib, st, acts, i).Offered?
    ensures acts[i].IsPrepare()
    ensures var s, s' := After(lib, st, acts[..i]), After(lib, st, acts[..i + 1]);
      && s.log.entries != [] && acts[i].id in s'.pending
      && var e := s'.pending[acts[i].id].unsigned.entry;
         EntryAsked(lib, s.log, acts[i], e) &&
         OutcomeAt(lib, st, acts, i).challenge.message == lib.encodeBytes(lib.entryBytes(e))
  {
    hide Step, EntryAsked;
    ReachableInv(lib, st, acts[..i]);
    AfterStep(lib, st, acts, i);
    OfferAsked(lib, After(lib, st, acts[..i]), acts[i]);
  }

  /** Every entry a commit appends does what the prepare behind it asked for, and carries the given proof. */
  lemma CommittedEntryAsked(lib: Library, st: AccountState, acts: seq<Action>, j: nat) returns (i: nat)
    requires LipmaaLaw(lib) && AccountInv(lib, st) && st.pending == map[]
    requires j < |acts| && acts[j].Commit? && OutcomeAt(lib, st, acts, j).Appended?
    ensures i < j && acts[i].IsPrepare() && acts[i].id == acts[j].id && Undisturbed(lib, st, acts[..j], i, acts[j].id)
    ensures var log, log' := After(lib, st, acts[..j]).log, After(lib, st, acts[..j + 1]).log;
      && log.entries != [] && log'.entries != []
      && lib.decodeMultisig(acts[j].signature) == Some(Last(log'.entries).proof)
      && EntryAsked(lib, log, acts[i], Last(log'.entries).(proof := []))
  {
    hide Step, EntryAsked, AccountInv;
    var p;
    i, p := CommitSafety(lib, st, acts, j);
    assert acts[..j][..i] == acts[..i];
    LogUntouched(lib, st, acts[..j], i, acts[j].id);
    ReachableInv(lib, st, acts[..i]);
    OfferAsked(lib, After(lib, st, acts[..i]), acts[i]);
    var log := After(lib, st, acts[..j]).log;
    SnocParts(log.entries, p.unsigned.entry.(proof := lib.decodeMultisig(acts[j].signature).value));
  }
}
