/** Atomic multi-ref transactions: what one `git update-ref --stdin` script does
    to a ref store, for any kind of ref name and object. */
module RefTransactions {
  import opened Options

  datatype RefUpdate<R, O> =
    | Create(ref: R, target: O)
    | Update(ref: R, target: O, was: Option<O>)
    | Delete(ref: R, was: Option<O>)

  /** CasLost is the one failure that means a peer moved the ref: it exists with
      another value. A missing ref, an already existing one, or a ref named twice
      fails the script without those words. */
  datatype TxError = EmptyTransaction | CasLost | Refused

  /** The line's own precondition, against the store as the script found it. */
  predicate LineHolds<R(==), O(==)>(refs: map<R, O>, u: RefUpdate<R, O>) {
    match u
    case Create(ref, _) => ref !in refs
    case Update(ref, _, Some(was)) => ref in refs && refs[ref] == was
    case Delete(ref, Some(was)) => ref in refs && refs[ref] == was
    case _ => true
  }

  function LineError<R(==), O(==)>(refs: map<R, O>, u: RefUpdate<R, O>): TxError {
    if !u.Create? && u.ref in refs then CasLost else Refused
  }

  function Apply<R(==), O>(refs: map<R, O>, u: RefUpdate<R, O>): map<R, O> {
    match u
    case Create(ref, target) => refs[ref := target]
    case Update(ref, target, _) => refs[ref := target]
    case Delete(ref, _) => refs - {ref}
  }

  function ApplyAll<R(==), O>(refs: map<R, O>, us: seq<RefUpdate<R, O>>): map<R, O> {
    if |us| == 0 then refs else Apply(ApplyAll(refs, us[..|us| - 1]), us[|us| - 1])
  }

  predicate DistinctRefs<R(==), O>(us: seq<RefUpdate<R, O>>) {
    forall i, j :: 0 <= i < j < |us| ==> us[i].ref != us[j].ref
  }

  /** Every line may go through. */
  predicate Admissible<R(==), O(==)>(refs: map<R, O>, us: seq<RefUpdate<R, O>>) {
    us != [] && DistinctRefs(us) && forall i :: 0 <= i < |us| ==> LineHolds(refs, us[i])
  }

  /** The first line that fails names the error. */
  function FirstError<R(==), O(==)>(refs: map<R, O>, us: seq<RefUpdate<R, O>>): TxError {
    if us == [] then Refused
    else if LineHolds(refs, us[0]) then FirstError(refs, us[1..])
    else LineError(refs, us[0])
  }

  /** All of it or none of it. */
  function Transact<R(==), O(==)>(refs: map<R, O>, us: seq<RefUpdate<R, O>>): Result<map<R, O>, TxError> {
    if us == [] then Err(EmptyTransaction)
    else if !DistinctRefs(us) then Err(Refused)
    else if Admissible(refs, us) then Ok(ApplyAll(refs, us))
    else Err(FirstError(refs, us))
  }

  function Named<R(==), O>(us: seq<RefUpdate<R, O>>): set<R> {
    set i | 0 <= i < |us| :: us[i].ref
  }

  /** Two stores agree on one ref. */
  predicate SameAt<R(==), O(==)>(a: map<R, O>, b: map<R, O>, r: R) {
    (r in a <==> r in b) && (r in a ==> a[r] == b[r])
  }

  /** The line's effect is in the store. */
  predicate Effected<R(==), O(==)>(refs: map<R, O>, u: RefUpdate<R, O>) {
    if u.Delete? then u.ref !in refs else u.ref in refs && refs[u.ref] == u.target
  }

  lemma {:induction false} ApplyAllUntouched<R, O>(refs: map<R, O>, us: seq<RefUpdate<R, O>>, r: R)
    requires r !in Named(us)
    ensures SameAt(refs, ApplyAll(refs, us), r)
  {
    if |us| > 0 {
      assert us[|us| - 1].ref in Named(us);
      assert Named(us[..|us| - 1]) <= Named(us);
      ApplyAllUntouched(refs, us[..|us| - 1], r);
    }
  }

  lemma {:induction false} ApplyAllTouched<R, O>(refs: map<R, O>, us: seq<RefUpdate<R, O>>, k: nat)
    requires DistinctRefs(us) && k < |us|
    ensures Effected(ApplyAll(refs, us), us[k])
  {
    var n := |us| - 1;
    if k < n {
      assert us[..n][k] == us[k];
      assert us[n].ref != us[k].ref;
      ApplyAllTouched(refs, us[..n], k);
    }
  }

  /** A script that goes through did everything it said and nothing else. */
  lemma TransactEffect<R, O>(refs: map<R, O>, us: seq<RefUpdate<R, O>>)
    requires Transact(refs, us).Ok?
    ensures Admissible(refs, us)
    ensures forall i :: 0 <= i < |us| ==> Effected(Transact(refs, us).value, us[i])
    ensures forall r :: r !in Named(us) ==> SameAt(refs, Transact(refs, us).value, r)
  {
    forall r | r !in Named(us) ensures SameAt(refs, Transact(refs, us).value, r) {
      ApplyAllUntouched(refs, us, r);
    }
    forall i | 0 <= i < |us| ensures Effected(Transact(refs, us).value, us[i]) {
      ApplyAllTouched(refs, us, i);
    }
  }

  /** The ref the line guards exists and holds something else. */
  predicate Moved<R(==), O(==)>(refs: map<R, O>, u: RefUpdate<R, O>) {
    !u.Create? && u.ref in refs && u.was.Some? && u.was.value != refs[u.ref]
  }

  /** A lost compare-and-swap is reported only when the first failing line names a
      ref that still exists, with another value. */
  lemma {:induction false} CasLostMeansMoved<R, O>(refs: map<R, O>, us: seq<RefUpdate<R, O>>) returns (k: nat)
    requires FirstError(refs, us) == CasLost
    ensures k < |us| && Moved(refs, us[k]) && forall j :: 0 <= j < k ==> LineHolds(refs, us[j])
  {
    if LineHolds(refs, us[0]) {
      var i := CasLostMeansMoved(refs, us[1..]);
      k := i + 1;
      forall j | 0 <= j < k ensures LineHolds(refs, us[j]) {
        if j > 0 { assert us[j] == us[1..][j - 1]; }
      }
    } else {
      k := 0;
    }
  }

  /** UpdateRefsTx: the script is read line by line against the store it found,
      and only a script whose every line holds is carried out. */
  method UpdateRefsTx<R(==), O(==)>(refs: map<R, O>, us: seq<RefUpdate<R, O>>) returns (r: Result<map<R, O>, TxError>)
    ensures r == Transact(refs, us)
  {
    if |us| == 0 {
      return Err(EmptyTransaction);
    }
    var named := {};
    var i := 0;
    while i < |us|
      invariant 0 <= i <= |us|
      invariant named == set j | 0 <= j < i :: us[j].ref
      invariant DistinctRefs(us[..i])
    {
      if us[i].ref in named {
        return Err(Refused);
      }
      named := named + {us[i].ref};
      assert us[..i + 1] == us[..i] + [us[i]];
      i := i + 1;
    }
    assert us[..|us|] == us;
    i := 0;
    while i < |us|
      invariant 0 <= i <= |us|
      invariant forall j :: 0 <= j < i ==> LineHolds(refs, us[j])
      invariant FirstError(refs, us) == FirstError(refs, us[i..])
    {
      if !LineHolds(refs, us[i]) {
        return Err(LineError(refs, us[i]));
      }
      assert us[i..][1..] == us[i + 1..];
      i := i + 1;
    }
    var after := refs;
    i := 0;
    while i < |us|
      invariant 0 <= i <= |us|
      invariant after == ApplyAll(refs, us[..i])
    {
      after := Apply(after, us[i]);
      assert us[..i + 1][..i] == us[..i];
      i := i + 1;
    }
    assert us[..|us|] == us;
    r := Ok(after);
  }
}
