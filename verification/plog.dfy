/**
  A small model of the provenance log: entries chained by CID, seqno and lipmaa long-hop, the
  key-value pairs folded from all entries, full-chain verification and verified append. Signatures,
  hashes, codecs and lock-script execution are the function fields of `Library`.
 */
module Plog {
  import opened Wrappers
  import opened Errors
  import opened Sequences
  import opened Keys

  type Byte = b: int | 0 <= b < 256
  type Bytes = seq<Byte>

  datatype Cid = Cid(raw: Bytes)
  datatype Vlad = Vlad(raw: Bytes)
  datatype Multikey = Multikey(raw: Bytes)

  datatype Script =
    | Code(path: Key, code: string)
    | Bin(path: Key, bytes: Bytes)
    | Link(path: Key, target: Cid)

  datatype Value = Nil | Str(s: string) | Data(bytes: Bytes)

  datatype Op = Noop(key: Key) | Delete(key: Key) | Update(key: Key, value: Value)

  type Kvp = map<Key, Value>

  datatype Entry = Entry(
    version: nat, vlad: Vlad, prev: Option<Cid>, seqno: nat, lipmaa: Option<Cid>,
    locks: seq<Script>, unlock: Script, ops: seq<Op>, proof: Bytes)

  datatype Log = Log(vlad: Vlad, firstLock: Script, entries: seq<Entry>)

  /** Everything that lives in foreign crates. Laws are stated where a theorem needs them. */
  datatype Library = Library(
    cid: Entry -> Cid,
    entryBytes: Entry -> Bytes,
    authorised: (seq<Script>, Kvp, Entry) -> bool,
    signable: Entry -> bool,                 // `prepare_unsigned_entry` accepts the entry
    buildable: Entry -> bool,                // `try_build_with_proof` accepts the entry
    isLipmaa: nat -> bool,
    lipmaa: nat -> nat,
    encodeCid: Cid -> string,
    encodeVlad: Vlad -> string,
    decodeVlad: string -> Option<Vlad>,
    encodeMultikey: Multikey -> string,
    decodeMultikey: string -> Option<Multikey>,
    multikeyBytes: Multikey -> Bytes,
    multikeyFromBytes: Bytes -> Option<Multikey>,
    encodeBytes: Bytes -> string,
    decodeBytes: string -> Option<Bytes>,
    decodeMultisig: string -> Option<Bytes>,
    encodePlog: Log -> string,
    decodePlog: string -> Option<Log>,
    hashVlad: string -> Bytes)

  ghost predicate MultikeyLaw(lib: Library) {
    forall mk :: lib.multikeyFromBytes(lib.multikeyBytes(mk)) == Some(mk)
  }

  ghost predicate BytesLaw(lib: Library) {
    forall b :: lib.decodeBytes(lib.encodeBytes(b)) == Some(b)
  }

  ghost predicate LipmaaLaw(lib: Library) {
    forall n: nat :: n >= 1 ==> lib.lipmaa(n) < n
  }

  const NULL_CID := Cid([])

  /** CID of the last entry. */
  function Head(lib: Library, log: Log): Cid {
    if log.entries == [] then NULL_CID else lib.cid(Last(log.entries))
  }

  function Prefix(log: Log, n: nat): Log
    requires n <= |log.entries|
  {
    log.(entries := log.entries[..n])
  }

  // ----- key-value pairs -----

  function ApplyOp(kvp: Kvp, op: Op): Kvp {
    match op
    case Noop(_) => kvp
    case Delete(k) => kvp - {k}
    case Update(k, v) => kvp[k := v]
  }

  function ApplyOps(kvp: Kvp, ops: seq<Op>): Kvp {
    if ops == [] then kvp else ApplyOp(ApplyOps(kvp, Init(ops)), Last(ops))
  }

  function KvpOf(entries: seq<Entry>): Kvp {
    if entries == [] then map[] else ApplyOps(KvpOf(Init(entries)), Last(entries).ops)
  }

  /** All ops of a history, oldest first. */
  function History(entries: seq<Entry>): seq<Op> {
    if entries == [] then [] else History(Init(entries)) + Last(entries).ops
  }

  predicate Writes(op: Op, key: Key) {
    !op.Noop? && op.key == key
  }

  /** `ops[i]` is the last op on `key` that is not a noop. */
  predicate LastWriter(ops: seq<Op>, key: Key, i: nat) {
    i < |ops| && Writes(ops[i], key) && forall j :: i < j < |ops| ==> !Writes(ops[j], key)
  }

  predicate NeverWritten(ops: seq<Op>, key: Key) {
    forall j :: 0 <= j < |ops| ==> !Writes(ops[j], key)
  }

  lemma {:induction false} ApplyOpsAppend(kvp: Kvp, a: seq<Op>, b: seq<Op>)
    ensures ApplyOps(kvp, a + b) == ApplyOps(ApplyOps(kvp, a), b)
  {
    if b == [] {
      assert a + b == a;
    } else {
      ApplyOpsAppend(kvp, a, Init(b));
      assert Init(a + b) == a + Init(b) && Last(a + b) == Last(b);
    }
  }

  lemma {:induction false} KvpOfHistory(entries: seq<Entry>)
    ensures KvpOf(entries) == ApplyOps(map[], History(entries))
  {
    if entries != [] {
      KvpOfHistory(Init(entries));
      ApplyOpsAppend(map[], History(Init(entries)), Last(entries).ops);
    }
  }

  /** Ops that do not write a key leave it as it was. */
  lemma {:induction false} ApplyOpsFrame(kvp: Kvp, ops: seq<Op>, key: Key)
    requires NeverWritten(ops, key)
    ensures (key in ApplyOps(kvp, ops)) == (key in kvp)
    ensures key in kvp ==> ApplyOps(kvp, ops)[key] == kvp[key]
  {
    if ops != [] {
      assert !Writes(ops[|ops| - 1], key);
      ApplyOpsFrame(kvp, Init(ops), key);
    }
  }

  /** A key holds what the last op writing it left there. */
  lemma {:induction false} ApplyOpsLastWriter(kvp: Kvp, ops: seq<Op>, key: Key, i: nat)
    requires LastWriter(ops, key, i)
    ensures ops[i].Delete? ==> key !in ApplyOps(kvp, ops)
    ensures ops[i].Update? ==> key in ApplyOps(kvp, ops) && ApplyOps(kvp, ops)[key] == ops[i].value
  {
    if i < |ops| - 1 {
      assert !Writes(ops[|ops| - 1], key);
      ApplyOpsLastWriter(kvp, Init(ops), key, i);
    }
  }

  lemma {:induction false} LastWriterExists(ops: seq<Op>, key: Key) returns (i: nat)
    ensures NeverWritten(ops, key) || LastWriter(ops, key, i)
  {
    if ops == [] {
      i := 0;
    } else if Writes(Last(ops), key) {
      i := |ops| - 1;
    } else {
      i := LastWriterExists(Init(ops), key);
    }
  }

  // ----- verification and append -----

  /** First entry with the given seqno. */
  function FindSeqno(entries: seq<Entry>, n: nat): Option<Entry> {
    if entries == [] then None
    else if FindSeqno(Init(entries), n).Some? then FindSeqno(Init(entries), n)
    else if Last(entries).seqno == n then Some(Last(entries))
    else None
  }

  /** The long-hop link the seqno calls for; `None` outside when the entry it names is missing. */
  function LongHop(lib: Library, log: Log, seqno: nat): Option<Option<Cid>> {
    if !lib.isLipmaa(seqno) then Some(None)
    else match FindSeqno(log.entries, lib.lipmaa(seqno))
      case None => None
      case Some(hop) => Some(Some(lib.cid(hop)))
  }

  /** The structural half of entry verification: `e` may follow the entries of `log`. */
  predicate Linked(lib: Library, log: Log, e: Entry) {
    && e.vlad == log.vlad
    && e.prev == (if log.entries == [] then None else Some(lib.cid(Last(log.entries))))
    && e.seqno == (if log.entries == [] then 0 else Last(log.entries).seqno + 1)
    && LongHop(lib, log, e.seqno) == Some(e.lipmaa)
  }

  function GoverningLocks(log: Log): seq<Script> {
    if log.entries == [] then [log.firstLock] else Last(log.entries).locks
  }

  predicate Authorised(lib: Library, log: Log, e: Entry) {
    lib.authorised(GoverningLocks(log), KvpOf(log.entries), e)
  }

  predicate StepOk(lib: Library, log: Log, e: Entry) {
    Linked(lib, log, e) && Authorised(lib, log, e)
  }

  /** Every entry verifies against the entries before it. */
  predicate AllOk(lib: Library, log: Log) {
    forall i :: 0 <= i < |log.entries| ==> StepOk(lib, Prefix(log, i), log.entries[i])
  }

  predicate Verified(lib: Library, log: Log) {
    log.entries != [] && AllOk(lib, log)
  }

  datatype Item = Item(count: nat, entry: Entry, kvp: Kvp)

  /** The items yielded by `Log::verify`: it stops after the first failure. */
  function VerifyFrom(lib: Library, log: Log, i: nat): seq<Result<Item, Error>>
    requires i <= |log.entries|
    decreases |log.entries| - i
  {
    if i == |log.entries| then []
    else if StepOk(lib, Prefix(log, i), log.entries[i]) then
      [Success(Item(i, log.entries[i], KvpOf(log.entries[..i + 1])))] + VerifyFrom(lib, log, i + 1)
    else [Failure(Error.Plog)]
  }

  function VerifyItems(lib: Library, log: Log): seq<Result<Item, Error>> {
    VerifyFrom(lib, log, 0)
  }

  predicate OkFrom(lib: Library, log: Log, i: nat) {
    forall j :: i <= j < |log.entries| ==> StepOk(lib, Prefix(log, j), log.entries[j])
  }

  lemma {:induction false} VerifyFromGood(lib: Library, log: Log, i: nat, j: nat)
    requires i + j < |log.entries| && OkFrom(lib, log, i)
    ensures |VerifyFrom(lib, log, i)| == |log.entries| - i
    ensures VerifyFrom(lib, log, i)[j] == Success(Item(i + j, log.entries[i + j], KvpOf(log.entries[..i + j + 1])))
    decreases |log.entries| - i
  {
    hide Linked, Authorised, KvpOf;
    assert StepOk(lib, Prefix(log, i), log.entries[i]);
    if i + 1 < |log.entries| {
      VerifyFromGood(lib, log, i + 1, if j == 0 then 0 else j - 1);
    }
  }

  lemma {:induction false} VerifyFromBad(lib: Library, log: Log, i: nat)
    requires i <= |log.entries| && !OkFrom(lib, log, i)
    ensures VerifyFrom(lib, log, i) != [] && Last(VerifyFrom(lib, log, i)) == Failure(Error.Plog)
    decreases |log.entries| - i
  {
    if StepOk(lib, Prefix(log, i), log.entries[i]) {
      VerifyFromBad(lib, log, i + 1);
    }
  }

  /**
    A reader of the last item only and a reader of all items agree: the last item is a success iff
    every item is, and then it carries the last entry and the pairs of the whole history.
   */
  lemma LastItemDecides(lib: Library, log: Log)
    ensures var items := VerifyItems(lib, log);
      && (items == [] <==> log.entries == [])
      && (Verified(lib, log) <==> items != [] && Last(items).Success?)
      && (Verified(lib, log) <==> items != [] && forall j :: 0 <= j < |items| ==> items[j].Success?)
      && (Verified(lib, log) ==>
            Last(items) == Success(Item(|log.entries| - 1, Last(log.entries), KvpOf(log.entries))))
      && (items != [] && Last(items).Failure? ==> Last(items) == Failure(Error.Plog))
  {
    var items := VerifyItems(lib, log);
    var n := |log.entries|;
    if n == 0 {
    } else if OkFrom(lib, log, 0) {
      forall j | 0 <= j < n
        ensures |items| == n && items[j] == Success(Item(j, log.entries[j], KvpOf(log.entries[..j + 1])))
      {
        VerifyFromGood(lib, log, 0, j);
      }
      assert log.entries[..n] == log.entries;
    } else {
      VerifyFromBad(lib, log, 0);
    }
  }

  function TryAppend(lib: Library, log: Log, e: Entry): Result<Log, Error> {
    if StepOk(lib, log, e) then Success(log.(entries := log.entries + [e])) else Failure(Error.Plog)
  }

  /** A successful append keeps the log verified and changes nothing that was there. */
  lemma AppendVerifies(lib: Library, log: Log, e: Entry)
    requires AllOk(lib, log) && TryAppend(lib, log, e).Success?
    ensures Verified(lib, TryAppend(lib, log, e).value)
  {
    var log' := TryAppend(lib, log, e).value;
    var n := |log.entries|;
    forall i | 0 <= i < n + 1 ensures StepOk(lib, Prefix(log', i), log'.entries[i]) {
      assert log'.entries[..i] == log.entries[..i];
      assert Prefix(log', i) == Prefix(log, i);
      if i == n {
        assert Prefix(log, n) == log;
      }
    }
  }

  /** In a chain of verified steps the seqno of an entry is its position. */
  lemma {:induction false} SeqnoIsPosition(lib: Library, log: Log, i: nat)
    requires AllOk(lib, log) && i < |log.entries|
    ensures log.entries[i].seqno == i
  {
    assert StepOk(lib, Prefix(log, i), log.entries[i]);
    if i > 0 {
      SeqnoIsPosition(lib, log, i - 1);
      assert Last(Prefix(log, i).entries) == log.entries[i - 1];
    }
  }

  lemma {:induction false} FindByPosition(entries: seq<Entry>, n: nat)
    requires forall i :: 0 <= i < |entries| ==> entries[i].seqno == i
    ensures FindSeqno(entries, n) == if n < |entries| then Some(entries[n]) else None
  {
    if entries != [] {
      FindByPosition(Init(entries), n);
    }
  }

  /** The long-hop lookup for the next entry never fails, and names a strictly earlier entry. */
  lemma LongHopFound(lib: Library, log: Log)
    requires LipmaaLaw(lib) && Verified(lib, log)
    ensures Last(log.entries).seqno + 1 == |log.entries|
    ensures LongHop(lib, log, |log.entries|) == Some(
      if lib.isLipmaa(|log.entries|) then Some(lib.cid(log.entries[lib.lipmaa(|log.entries|)])) else None)
  {
    forall i | 0 <= i < |log.entries| ensures log.entries[i].seqno == i {
      SeqnoIsPosition(lib, log, i);
    }
    if lib.isLipmaa(|log.entries|) {
      FindByPosition(log.entries, lib.lipmaa(|log.entries|));
    }
  }

  /** The shape of entry `i` of a chain. */
  predicate ChainedAt(lib: Library, log: Log, i: nat)
    requires i < |log.entries|
  {
    var e := log.entries[i];
    && e.vlad == log.vlad
    && e.seqno == i
    && e.prev == (if i == 0 then None else Some(lib.cid(log.entries[i - 1])))
    && (i > 0 ==> e.lipmaa == LipmaaLink(lib, log, i))
  }

  function LipmaaLink(lib: Library, log: Log, i: nat): Option<Cid> {
    if lib.isLipmaa(i) && lib.lipmaa(i) < |log.entries| then Some(lib.cid(log.entries[lib.lipmaa(i)])) else None
  }

  /**
    The shape of every verified chain: constant VLAD, seqno counting from 0, prev the predecessor's
    CID, and a lipmaa link exactly where the seqno calls for one, to an existing earlier entry.
   */
  lemma ChainShape(lib: Library, log: Log, i: nat)
    requires LipmaaLaw(lib) && Verified(lib, log) && i < |log.entries|
    ensures ChainedAt(lib, log, i)
    ensures i > 0 ==> lib.lipmaa(i) < i
    ensures i > 0 ==> (log.entries[i].lipmaa.Some? <==> lib.isLipmaa(i))
  {
    SeqnoIsPosition(lib, log, i);
    var before := Prefix(log, i);
    assert StepOk(lib, before, log.entries[i]);
    if i > 0 {
      assert Last(before.entries) == log.entries[i - 1];
      forall j | 0 <= j < i ensures before.entries[j].seqno == j {
        SeqnoIsPosition(lib, log, j);
      }
      if lib.isLipmaa(i) {
        FindByPosition(before.entries, lib.lipmaa(i));
      }
    }
  }
}
