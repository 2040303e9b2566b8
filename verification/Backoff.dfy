/** The retry queue: failure streaks, the locked map of keys, and the waiting loops. */
module Backoff {
  import opened Wrappers

  const U32_MAX: nat := 0xFFFF_FFFF

  type u32 = n: nat | n <= U32_MAX

  /** How many failures in a row an episode has seen. */
  datatype FailureStreak = FailureStreak(failures: u32)

  /** The count saturates at `u32::MAX`. */
  function RecordFailure(streak: FailureStreak): FailureStreak {
    FailureStreak(if streak.failures == U32_MAX then U32_MAX else streak.failures + 1)
  }

  /** The wait before the next attempt, in milliseconds. */
  function WaitFor(failures: u32): nat {
    match failures
    case 0 => 0
    case 1 => 1_000
    case 2 => 5_000
    case 3 => 30_000
    case _ => 120_000
  }

  /** The identity of one `Arc<AtomicBool>`: two loops never share a token. */
  type Token = nat

  datatype RetryState = RetryState(streak: FailureStreak, running: Option<Token>)

  /** What the map holds under one key. */
  type Entry = Option<RetryState>

  type Keys = map<string, RetryState>

  datatype Attempt = Attempt(number: u32, wait: nat)

  /** What a failure leaves under its key, and the attempt it earns while the budget holds. */
  datatype Noted = Noted(entry: Entry, next: Option<Attempt>)

  function At(keys: Keys, key: string): Entry {
    if key in keys then Some(keys[key]) else None
  }

  function With(keys: Keys, key: string, entry: Entry): (r: Keys)
    ensures forall k :: At(r, k) == if k == key then entry else At(keys, k)
  {
    if entry.Some? then keys[key := entry.value] else keys - {key}
  }

  function Running(entry: Entry): Option<Token> {
    if entry.Some? then entry.value.running else None
  }

  function NoteFailure(entry: Entry, budget: u32): Noted {
    var state :=
      if entry.Some? then entry.value.(streak := RecordFailure(entry.value.streak))
      else RetryState(FailureStreak(1), None);
    var n := state.streak.failures;
    Noted(Some(state), if n <= budget then Some(Attempt(n, WaitFor(n))) else None)
  }

  function NoteRetry(entry: Entry, budget: u32, token: Token): Noted {
    if Running(entry) == Some(token) then NoteFailure(entry, budget) else Noted(entry, None)
  }

  /** `token` is the fresh token the spawned loop would carry. */
  function Scheduled(entry: Entry, budget: u32, token: Token): Noted {
    if Running(entry).Some? then Noted(entry, None)
    else
      var noted := NoteFailure(entry, budget);
      if noted.next.None? then noted
      else noted.(entry := Some(noted.entry.value.(running := Some(token))))
  }

  function Finished(entry: Entry, token: Token): Entry {
    if Running(entry) == Some(token) then Some(entry.value.(running := None)) else entry
  }

  /** The mutex-guarded map, with the cancel flags its loops share. */
  class RetryQueue {
    var keys: Keys
    var flags: seq<bool>

    ghost predicate Valid()
      reads this
    {
      && (forall k <- keys :: keys[k].running.Some? ==> keys[k].running.value < |flags|)
      && (forall k, l :: k in keys && l in keys && keys[k].running.Some? && keys[k].running == keys[l].running ==>
            k == l)
    }

    constructor ()
      ensures Valid() && keys == map[] && flags == []
    {
      keys, flags := map[], [];
    }

    /** Forgets the key and raises the flag of the loop it was waiting on, and no other. */
    method Clear(key: string)
      requires Valid()
      modifies this
      ensures Valid() && keys == With(old(keys), key, None) && |flags| == |old(flags)|
      ensures forall t :: 0 <= t < |flags| ==> flags[t] == (old(flags)[t] || Running(At(old(keys), key)) == Some(t))
    {
      if key in keys {
        var removed := keys[key];
        keys := keys - {key};
        if removed.running.Some? {
          flags := flags[removed.running.value := true];
        }
      }
    }

    /** Forgets every key and raises exactly the flags their loops share. */
    method ClearAll()
      requires Valid()
      modifies this
      ensures Valid() && keys == map[] && |flags| == |old(flags)|
      ensures forall t :: 0 <= t < |flags| ==>
        flags[t] == (old(flags)[t] || exists k :: k in old(keys) && old(keys)[k].running == Some(t))
    {
      while keys != map[]
        invariant Valid() && |flags| == |old(flags)|
        invariant forall k <- keys :: k in old(keys) && keys[k] == old(keys)[k]
        invariant forall t :: 0 <= t < |flags| ==>
          flags[t] == (old(flags)[t] || exists k :: k in old(keys) && k !in keys && old(keys)[k].running == Some(t))
        decreases |keys|
      {
        var key :| key in keys;
        var running := keys[key].running;
        keys := keys - {key};
        if running.Some? {
          flags := flags[running.value := true];
        }
      }
    }

    /** Some when an attempt was queued: the token and first attempt of the loop to spawn. */
    method Schedule(key: string, budget: u32) returns (queued: Option<(Token, Attempt)>)
      requires Valid()
      modifies this
      ensures Valid()
      ensures var s := Scheduled(At(old(keys), key), budget, |old(flags)|);
              && keys == With(old(keys), key, s.entry)
              && queued == (if s.next.Some? then Some((|old(flags)|, s.next.value)) else None)
              && flags == (if s.next.Some? then old(flags) + [false] else old(flags))
      ensures queued.Some? <==>
        && (key in old(keys) ==> old(keys)[key].running.None?)
        && (if key in old(keys) then RecordFailure(old(keys)[key].streak).failures else 1) <= budget
    {
      if key in keys && keys[key].running.Some? {
        return None;
      }
      var noted := NoteFailure(At(keys, key), budget);
      keys := keys[key := noted.entry.value];
      if noted.next.None? {
        return None;
      }
      var token := |flags|;
      flags := flags + [false];
      keys := keys[key := keys[key].(running := Some(token))];
      return Some((token, noted.next.value));
    }

    /** The lock section between two attempts of the loop that holds `token`. */
    method Retry(key: string, budget: u32, token: Token) returns (next: Option<Attempt>)
      requires Valid()
      modifies this`keys
      ensures Valid()
      ensures var r := NoteRetry(At(old(keys), key), budget, token);
              keys == With(old(keys), key, r.entry) && next == r.next
    {
      if !(key in keys && keys[key].running == Some(token)) {
        return None;
      }
      var noted := NoteFailure(At(keys, key), budget);
      keys := keys[key := noted.entry.value];
      next := noted.next;
    }

    /** The lock section a loop ends with. */
    method Finish(key: string, token: Token)
      requires Valid()
      modifies this`keys
      ensures Valid() && keys == With(old(keys), key, Finished(At(old(keys), key), token))
    {
      if key in keys && keys[key].running == Some(token) {
        keys := keys[key := keys[key].(running := None)];
      }
    }
  }
}
