/** Whether a connection reset lies behind an error, in a chain of causes that may run in a circle. */
module Resets {
  import opened Wrappers

  /** Errors by identity: which are resets, and which error each one names as its cause or context. */
  datatype Chain = Chain(resets: set<nat>, behind: map<nat, nat>) {
    function Next(error: nat): Option<nat> {
      if error in behind then Some(behind[error]) else None
    }
  }

  /** The error `k` links behind `error`. */
  function Behind(chain: Chain, error: nat, k: nat): Option<nat>
    decreases k
  {
    if k == 0 then Some(error)
    else
      match chain.Next(error)
      case None => None
      case Some(next) => Behind(chain, next, k - 1)
  }

  ghost predicate ResetBehind(chain: Chain, error: nat, k: nat) {
    var found := Behind(chain, error, k);
    found.Some? && found.value in chain.resets
  }

  /** Errors already seen lead only to each other and to the one looked at next. */
  ghost predicate Explored(chain: Chain, seen: set<nat>, error: Option<nat>) {
    forall e | e in seen ::
      && e !in chain.resets
      && var next := chain.Next(e); next == error || (next.Some? && next.value in seen)
  }

  lemma {:induction false} NothingBehind(chain: Chain, seen: set<nat>, error: nat, k: nat)
    requires Explored(chain, seen, None) || exists e :: e in seen && Explored(chain, seen, Some(e))
    requires error in seen
    ensures !ResetBehind(chain, error, k)
    decreases k
  {
    if k > 0 && chain.Next(error).Some? {
      NothingBehind(chain, seen, chain.behind[error], k - 1);
    }
  }

  lemma {:induction false} FoundBehind(chain: Chain, error: nat, k: nat, next: nat)
    requires Behind(chain, error, k) == Some(next) && chain.Next(next).Some?
    ensures Behind(chain, error, k + 1) == chain.Next(next)
    decreases k
  {
    if k > 0 {
      FoundBehind(chain, chain.behind[error], k - 1, next);
    }
  }

  /** The walk ends on every chain, and finds a reset exactly when one lies behind the error. */
  method IsReset(chain: Chain, start: nat) returns (reset: bool)
    ensures reset <==> exists k: nat :: ResetBehind(chain, start, k)
  {
    var seen, error: Option<nat> := {}, Some(start);
    ghost var k: nat := 0;
    while error.Some? && error.value !in seen
      invariant Explored(chain, seen, error)
      invariant error.Some? ==> Behind(chain, start, k) == error
      invariant start in seen || error == Some(start)
      decreases chain.behind.Keys - seen, error.Some?
    {
      if error.value in chain.resets {
        assert ResetBehind(chain, start, k);
        return true;
      }
      if chain.Next(error.value).Some? {
        FoundBehind(chain, start, k, error.value);
        k := k + 1;
      }
      seen := seen + {error.value};
      error := chain.Next(error.value);
    }
    forall j: nat ensures !ResetBehind(chain, start, j) {
      NothingBehind(chain, seen, start, j);
    }
    return false;
  }
}
