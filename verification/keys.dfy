/**
  Key paths and the delegation helpers built on them: branches, ancestors, the delegate key
  `{branch}pubkey` and the lock code generated for a delegated branch.
 */
module Keys {
  import opened Wrappers
  import opened Errors

  /** A logical key path. Operations only obtain one through `ParseKey`. */
  type Key = string

  const ROOT: Key := "/"
  const PUBKEY: Key := "/pubkey"

  predicate IsKey(s: string) {
    s != "" && s[0] == '/'
  }

  predicate IsBranch(k: Key) {
    k != "" && k[|k| - 1] == '/'
  }

  predicate ParentOf(a: Key, b: Key) {
    IsBranch(a) && a <= b
  }

  function ParseKey(s: string): Result<Key, Error> {
    if IsKey(s) then Success(s) else Failure(InvalidOp)
  }

  /** A branch that may be delegated: a key path, ending in `/`, other than the root. */
  predicate IsDelegable(s: string) {
    IsKey(s) && IsBranch(s) && s != ROOT
  }

  function ParseBranchPath(path: string): (r: Result<Key, Error>)
    ensures r.Success? <==> IsDelegable(path)
    ensures r.Success? ==> r.value == path
  {
    var key :- ParseKey(path);
    if !IsBranch(key) then Failure(InvalidOp)
    else if key == ROOT then Failure(InvalidOp)
    else Success(key)
  }

  function DelegatePubkeyKey(branch: Key): Result<Key, Error> {
    if !IsBranch(branch) then Failure(InvalidOp) else ParseKey(branch + "pubkey")
  }

  function SignatureCheck(branch: Key): string {
    "check_signature(\"" + branch + "pubkey\""
  }

  function DelegatedLockCode(branch: Key): string {
    "check_signature(\"" + branch + "pubkey\", \"/entry/\")"
  }

  predicate Contains(s: string, sub: string) {
    exists i :: 0 <= i <= |s| && sub <= s[i..]
  }

  /** The substring test by which `list_delegations` recognises a delegated branch's lock. */
  predicate LooksDelegated(path: Key, code: string) {
    Contains(code, SignatureCheck(path)) || Contains(code, "branch(\"pubkey\")")
  }

  /** The code generated for a branch passes the substring test for that branch. */
  lemma GeneratedCodeLooksDelegated(branch: Key)
    ensures LooksDelegated(branch, DelegatedLockCode(branch))
  {
    var code := DelegatedLockCode(branch);
    assert code == SignatureCheck(branch) + ", \"/entry/\")";
    assert SignatureCheck(branch) <= code[0..];
  }

  /** Distinct branches have distinct delegate keys, and no delegable branch has the root's. */
  lemma DelegateKeyInjective(a: Key, b: Key)
    ensures a + "pubkey" == b + "pubkey" ==> a == b
    ensures IsDelegable(a) ==> a + "pubkey" != PUBKEY
  {
    var p := "pubkey";
    if a + p == b + p {
      assert |a| == |b|;
      assert (a + p)[..|a|] == a && (b + p)[..|b|] == b;
    }
    assert a + p == PUBKEY ==> |a| == 1;
  }

  /** The ancestors of one key form a chain. */
  lemma AncestorsFormChain(a: Key, b: Key, target: Key)
    requires ParentOf(a, target) && ParentOf(b, target)
    ensures |a| <= |b| ==> ParentOf(a, b)
    ensures |a| == |b| ==> a == b
  {
  }
}
