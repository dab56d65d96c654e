/** Assembly of the next unsigned entry from a verified head, and the append that completes it. */
module EntryUpdate {
  import opened Wrappers
  import opened Errors
  import opened Sequences
  import opened Keys
  import opened Plog

  const ENTRY_VERSION: nat := 1
  const DEFAULT_UNLOCK := Code(ROOT, "push(\"/entry/\"); push(\"/entry/proof\")")

  datatype OpParams =
    | Noop(key: Key)
    | Delete(key: Key)
    | UseCid(key: Key, cid: Cid)
    | UseKey(key: Key, mk: Multikey)
    | UseStr(key: Key, s: string)
    | UseBin(key: Key, data: Bytes)
    | KeyGen(key: Key)
    | CidGen(key: Key)

  datatype NextEntrySpec = NextEntrySpec(unlock: Script, locks: Option<seq<Script>>, ops: seq<OpParams>)

  /** An entry with empty proof, and the bytes handed out to be signed. */
  datatype UnsignedUpdate = UnsignedUpdate(entry: Entry, message: Bytes)

  function OpFromParams(lib: Library, params: OpParams): Result<Op, Error> {
    match params
    case Noop(k) => Success(Op.Noop(k))
    case Delete(k) => Success(Op.Delete(k))
    case UseCid(k, cid) => Success(Op.Update(k, Data(cid.raw)))
    case UseKey(k, mk) => Success(Op.Update(k, Data(lib.multikeyBytes(mk))))
    case UseStr(k, s) => Success(Op.Update(k, Str(s)))
    case UseBin(k, data) => Success(Op.Update(k, Data(data)))
    case KeyGen(_) => Failure(InvalidOp)
    case CidGen(_) => Failure(InvalidOp)
  }

  predicate Resolved(params: seq<OpParams>) {
    forall p :: p in params ==> !p.KeyGen? && !p.CidGen?
  }

  function OpsFromParams(lib: Library, params: seq<OpParams>): (r: Result<seq<Op>, Error>)
    ensures r.Success? <==> Resolved(params)
    ensures r.Success? ==> |r.value| == |params| && forall i :: 0 <= i < |params| ==>
      OpFromParams(lib, params[i]) == Success(r.value[i])
    ensures r.Failure? ==> r.error == InvalidOp
  {
    if params == [] then Success([])
    else
      assert params == Init(params) + [Last(params)];
      var before :- OpsFromParams(lib, Init(params));
      var op :- OpFromParams(lib, Last(params));
      Success(before + [op])
  }

  /** What the op built from a param does to the pairs. */
  lemma ParamEffect(lib: Library, kvp: Kvp, params: OpParams)
    requires OpFromParams(lib, params).Success?
    ensures ApplyOp(kvp, OpFromParams(lib, params).value) ==
      if params.Noop? then kvp
      else if params.Delete? then map k | k in kvp && k != params.key :: kvp[k]
      else kvp[params.key :=
        match params
        case UseCid(_, cid) => Data(cid.raw)
        case UseKey(_, mk) => Data(lib.multikeyBytes(mk))
        case UseStr(_, s) => Str(s)
        case UseBin(_, data) => Data(data)]
  {
  }

  /** The head's locks without those at `path`, followed by `add`. */
  function ReplacePath(locks: seq<Script>, path: Key, add: Option<Script>): seq<Script> {
    DropPath(locks, path) + if add.Some? then [add.value] else []
  }

  function DropPath(locks: seq<Script>, path: Key): seq<Script> {
    if locks == [] then []
    else if Last(locks).path == path then DropPath(Init(locks), path)
    else DropPath(Init(locks), path) + [Last(locks)]
  }

  /** `idx` lists, in ascending order, the positions of the locks at other paths, and `kept` is what is there. */
  predicate Selects(kept: seq<Script>, locks: seq<Script>, path: Key, idx: seq<nat>) {
    && |idx| == |kept|
    && (forall i :: 0 <= i < |idx| ==> idx[i] < |locks| && locks[idx[i]].path != path && kept[i] == locks[idx[i]])
    && (forall i, j :: 0 <= i < j < |idx| ==> idx[i] < idx[j])
    && (forall k :: 0 <= k < |locks| && locks[k].path != path ==> k in idx)
  }

  /** The locks at other paths, each once and in order. */
  ghost predicate OtherLocks(kept: seq<Script>, locks: seq<Script>, path: Key) {
    exists idx :: Selects(kept, locks, path, idx)
  }

  lemma SelectsSkip(kept: seq<Script>, locks: seq<Script>, path: Key, idx: seq<nat>, l: Script)
    requires Selects(kept, locks, path, idx) && l.path == path
    ensures Selects(kept, locks + [l], path, idx)
  {
  }

  lemma SelectsKeep(kept: seq<Script>, locks: seq<Script>, path: Key, idx: seq<nat>, l: Script)
    requires Selects(kept, locks, path, idx) && l.path != path
    ensures Selects(kept + [l], locks + [l], path, idx + [|locks|])
  {
    var more := idx + [|locks|];
    assert forall i :: 0 <= i < |idx| ==> more[i] == idx[i];
    forall k | 0 <= k < |locks| + 1 && (locks + [l])[k].path != path ensures k in more {
      if k < |locks| {
        assert locks[k].path != path;
      } else {
        assert more[|idx|] == k;
      }
    }
  }

  lemma {:induction false} DropPathSelects(locks: seq<Script>, path: Key) returns (idx: seq<nat>)
    ensures Selects(DropPath(locks, path), locks, path, idx)
  {
    if locks == [] {
      idx := [];
    } else {
      hide Selects;
      idx := DropPathSelects(Init(locks), path);
      assert locks == Init(locks) + [Last(locks)];
      if Last(locks).path == path {
        SelectsSkip(DropPath(Init(locks), path), Init(locks), path, idx, Last(locks));
      } else {
        SelectsKeep(DropPath(Init(locks), path), Init(locks), path, idx, Last(locks));
        idx := idx + [|Init(locks)|];
      }
    }
  }

  /** Replacing a path: the locks at other paths, then the new one if there is one. */
  lemma ReplacePathMeaning(locks: seq<Script>, path: Key, add: Option<Script>) returns (kept: seq<Script>)
    ensures OtherLocks(kept, locks, path)
    ensures ReplacePath(locks, path, add) == kept + if add.Some? then [add.value] else []
  {
    kept := DropPath(locks, path);
    var idx := DropPathSelects(locks, path);
  }

  method LocksReplacingPath(head: Entry, path: Key, add: Option<Script>) returns (out: seq<Script>)
    ensures out == ReplacePath(head.locks, path, add)
    ensures exists kept :: OtherLocks(kept, head.locks, path) && out == kept + if add.Some? then [add.value] else []
  {
    ghost var others := ReplacePathMeaning(head.locks, path, add);
    out := [];
    for i := 0 to |head.locks|
      invariant out == DropPath(head.locks[..i], path)
    {
      TakeSnoc(head.locks, i);
      if head.locks[i].path != path {
        out := out + [head.locks[i]];
      }
    }
    assert head.locks[..|head.locks|] == head.locks;
    if add.Some? {
      out := out + [add.value];
    }
  }

  /** The entry that `prepare_next_entry` assembles from a verified head. */
  function Assembled(lib: Library, last: Entry, spec: NextEntrySpec, ops: seq<Op>, lipmaa: Option<Cid>): Entry {
    Entry(ENTRY_VERSION, last.vlad, Some(lib.cid(last)), last.seqno + 1, lipmaa,
          if spec.locks.Some? then spec.locks.value else last.locks, spec.unlock, ops, [])
  }

  function NextEntry(lib: Library, log: Log, spec: NextEntrySpec): Result<UnsignedUpdate, Error> {
    if log.entries == [] then Failure(PlogVerifyFailed)
    else if !Verified(lib, log) then Failure(Error.Plog)
    else
      var last := Last(log.entries);
      var ops :- OpsFromParams(lib, spec.ops);
      match LongHop(lib, log, last.seqno + 1)
      case None => Failure(Error.Plog)
      case Some(lipmaa) =>
        var e := Assembled(lib, last, spec, ops, lipmaa);
        if lib.signable(e) then Success(UnsignedUpdate(e, lib.entryBytes(e))) else Failure(Error.Plog)
  }

  method PrepareNextEntry(lib: Library, log: Log, spec: NextEntrySpec) returns (r: Result<UnsignedUpdate, Error>)
    ensures r == NextEntry(lib, log, spec)
  {
    hide StepOk, KvpOf;
    LastItemDecides(lib, log);
    var items := VerifyItems(lib, log);
    if items == [] {
      return Failure(PlogVerifyFailed);
    }
    var item :- items[|items| - 1];
    var lastEntry := item.entry;
    var locks := if spec.locks.Some? then spec.locks.value else lastEntry.locks;
    var entry := Entry(ENTRY_VERSION, lastEntry.vlad, Some(lib.cid(lastEntry)), lastEntry.seqno + 1, None,
                       locks, spec.unlock, [], []);
    for i := 0 to |spec.ops|
      invariant OpsFromParams(lib, spec.ops[..i]) == Success(entry.ops)
      invariant entry == Assembled(lib, lastEntry, spec, entry.ops, None)
    {
      TakeSnoc(spec.ops, i);
      var built := OpFromParams(lib, spec.ops[i]);
      if built.Failure? {
        assert spec.ops[i] in spec.ops;
        return Failure(built.error);
      }
      entry := entry.(ops := entry.ops + [built.value]);
    }
    assert spec.ops[..|spec.ops|] == spec.ops;
    var seqno := lastEntry.seqno + 1;
    if lib.isLipmaa(seqno) {
      var hop := FindSeqno(log.entries, lib.lipmaa(seqno));
      if hop.None? {
        return Failure(Error.Plog);
      }
      entry := entry.(lipmaa := Some(lib.cid(hop.value)));
    }
    if !lib.signable(entry) {
      return Failure(Error.Plog);
    }
    r := Success(UnsignedUpdate(entry, lib.entryBytes(entry)));
  }

  function CommitWithMultisig(lib: Library, log: Log, unsigned: Entry, proof: Bytes): Result<Log, Error> {
    var e := unsigned.(proof := proof);
    if lib.buildable(e) then TryAppend(lib, log, e) else Failure(Error.Plog)
  }

  /** A prepared entry already satisfies every structural check, whatever proof it is completed with. */
  lemma PreparedIsLinked(lib: Library, log: Log, spec: NextEntrySpec, proof: Bytes)
    requires LipmaaLaw(lib) && NextEntry(lib, log, spec).Success?
    ensures Linked(lib, log, NextEntry(lib, log, spec).value.entry.(proof := proof))
  {
  }

  /** On a verified log preparing fails only for an unresolved op or when the entry cannot be signed. */
  lemma PrepareFailsOnlyFor(lib: Library, log: Log, spec: NextEntrySpec)
    requires LipmaaLaw(lib) && Verified(lib, log)
    ensures var r := NextEntry(lib, log, spec);
      r.Success? <==>
        && Resolved(spec.ops)
        && lib.signable(Assembled(lib, Last(log.entries), spec, OpsFromParams(lib, spec.ops).value,
                                  LipmaaLink(lib, log, |log.entries|)))
  {
    LongHopFound(lib, log);
  }

  lemma {:induction false} DropPathMembers(locks: seq<Script>, path: Key)
    ensures forall s :: s in DropPath(locks, path) <==> s in locks && s.path != path
  {
    if locks != [] {
      DropPathMembers(Init(locks), path);
      assert locks == Init(locks) + [Last(locks)];
    }
  }
}
