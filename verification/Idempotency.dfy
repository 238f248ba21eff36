/** The idempotency store: a key table on which Begin, Complete, Release and Sweep act one statement at a time. */
module Idempotency {
  import opened Domain

  datatype Entry = Entry(fingerprint: Text, status: int, headers: Text, body: Text)

  /** A row without an entry is a request in flight: status_code is NULL. */
  datatype KeyRow = KeyRow(expiresAt: int, entry: Option<Entry>)

  type Keys = map<Text, KeyRow>

  datatype BeginResult = Begun | InFlight | Completed(entry: Entry)

  /** One statement.  A Begin is a Reserve and, if that took no row, a ReadBack at some later point. */
  datatype Event =
    | Reserve(key: Text, now: int)
    | ReadBack(key: Text)
    | Complete(key: Text, entry: Entry, handler: nat)  // handler: which Reserve of this run the handler answers
    | Release(key: Text)
    | Sweep(now: int)

  // ---- what each statement does to the table

  /** The insert takes the key if nobody holds it, or if the holder's time is up. */
  predicate Wins(keys: Keys, key: Text, now: int) {
    key !in keys || keys[key].expiresAt <= now
  }

  function Found(keys: Keys, key: Text): BeginResult {
    if key in keys && keys[key].entry.Some? then Completed(keys[key].entry.value) else InFlight
  }

  function Swept(keys: Keys, now: int): Keys {
    map k | k in keys && keys[k].expiresAt > now :: keys[k]
  }

  function Apply(ttl: int, keys: Keys, e: Event): Keys {
    match e
    case Reserve(key, now) => if Wins(keys, key, now) then keys[key := KeyRow(now + ttl, None)] else keys
    case ReadBack(_) => keys
    case Complete(key, entry, _) => if key in keys then keys[key := keys[key].(entry := Some(entry))] else keys
    case Release(key) => if key in keys && keys[key].entry.None? then keys - {key} else keys
    case Sweep(now) => Swept(keys, now)
  }

  function Run(ttl: int, events: seq<Event>): Keys {
    if events == [] then map[]
    else Apply(ttl, Run(ttl, events[..|events| - 1]), events[|events| - 1])
  }

  const DAY: int := 24 * 3600 * 1_000_000_000

  class IdempotencyStore {
    const ttl: int
    var keys: Keys

    constructor (ttl: int)
      ensures this.ttl == (if ttl <= 0 then DAY else ttl) && this.ttl > 0
      ensures keys == map[]
    {
      this.ttl := if ttl <= 0 then DAY else ttl;
      keys := map[];
    }

    /** INSERT … ON CONFLICT DO UPDATE … WHERE expired: whether a row was affected. */
    method TryReserve(key: Text, now: int) returns (won: bool)
      modifies this
      ensures won == Wins(old(keys), key, now)
      ensures keys == Apply(ttl, old(keys), Reserve(key, now))
    {
      won := key !in keys;
      if won {
        keys := keys[key := KeyRow(now + ttl, None)];
      } else if keys[key].expiresAt <= now {
        keys := keys[key := keys[key].(expiresAt := now + ttl, entry := None)];
        won := true;
      }
    }

    /** Begin with no other statement between its two. */
    method Begin(key: Text, now: int) returns (result: BeginResult)
      modifies this
      ensures keys == Apply(ttl, old(keys), Reserve(key, now))
      ensures result == if Wins(old(keys), key, now) then Begun else Found(old(keys), key)
    {
      var won := TryReserve(key, now);
      if won {
        return Begun;
      }
      if key !in keys || keys[key].entry.None? {
        return InFlight;
      }
      return Completed(keys[key].entry.value);
    }

    method Complete(key: Text, entry: Entry)
      modifies this
      ensures forall handler :: keys == Apply(ttl, old(keys), Event.Complete(key, entry, handler))
    {
      if key in keys {
        keys := keys[key := keys[key].(entry := Some(entry))];
      }
    }

    method Release(key: Text)
      modifies this
      ensures keys == Apply(ttl, old(keys), Event.Release(key))
    {
      if key in keys && keys[key].entry.None? {
        keys := keys - {key};
      }
    }

    method Sweep(now: int) returns (deleted: nat)
      modifies this
      ensures keys == Apply(ttl, old(keys), Event.Sweep(now))
      ensures deleted == |old(keys)| - |keys|
    {
      var before, left := keys, keys.Keys;
      deleted := 0;
      while left != {}
        invariant left <= before.Keys
        invariant forall k :: k in keys <==> k in before && (k in left || before[k].expiresAt > now)
        invariant forall k :: k in keys ==> keys[k] == before[k]
        invariant |keys| == |before| - deleted
        decreases left
      {
        var k :| k in left;
        if before[k].expiresAt <= now {
          assert keys.Keys == (keys - {k}).Keys + {k};
          keys := keys - {k};
          deleted := deleted + 1;
        }
        left := left - {k};
      }
      assert keys == Swept(before, now);
    }
  }

  // ---- runs: any interleaving of statements, with no assumption that their clocks agree

  /** The i-th statement is a Begin that won its key. */
  predicate Won(ttl: int, events: seq<Event>, i: int) {
    0 <= i < |events| && events[i].Reserve? && Wins(Run(ttl, events[..i]), events[i].key, events[i].now)
  }

  function Expiry(ttl: int, events: seq<Event>, i: nat): int
    requires i < |events| && events[i].Reserve?
  {
    events[i].now + ttl
  }

  /** The entry the last Complete for the key stored, among events lo to hi. */
  function LastCompletion(events: seq<Event>, key: Text, lo: nat, hi: nat): Option<Entry>
    requires hi <= |events|
  {
    if hi <= lo then None
    else if events[hi - 1].Complete? && events[hi - 1].key == key then Some(events[hi - 1].entry)
    else LastCompletion(events, key, lo, hi - 1)
  }

  /** The m-th statement ends the reservation won at i: it is past its expiry, or it releases it uncompleted. */
  predicate Ends(ttl: int, events: seq<Event>, i: nat, m: nat)
    requires i < |events| && m < |events| && events[i].Reserve?
  {
    match events[m]
    case Reserve(key, now) => key == events[i].key && Expiry(ttl, events, i) <= now
    case Sweep(now) => Expiry(ttl, events, i) <= now
    case Release(key) => key == events[i].key && LastCompletion(events, key, i + 1, m).None?
    case _ => false
  }

  lemma RunStarts(ttl: int, events: seq<Event>)
    ensures Run(ttl, events[..0]) == map[]
  {
    assert events[..0] == [];
  }

  lemma RunStep(ttl: int, events: seq<Event>, n: nat)
    requires n < |events|
    ensures Run(ttl, events[..n + 1]) == Apply(ttl, Run(ttl, events[..n]), events[n])
  {
    assert events[..n + 1][..n] == events[..n];
  }

  /** Until something ends it, a reservation stands with its own expiry and its own last response. */
  lemma {:induction false} ReservationStands(ttl: int, events: seq<Event>, i: nat, n: nat)
    requires Won(ttl, events, i) && i < n <= |events|
    requires forall m :: i < m < n ==> !Ends(ttl, events, i, m)
    ensures var key, keys := events[i].key, Run(ttl, events[..n]);
            key in keys && keys[key] == KeyRow(Expiry(ttl, events, i), LastCompletion(events, key, i + 1, n))
  {
    hide Run;
    RunStep(ttl, events, n - 1);
    if n > i + 1 {
      ReservationStands(ttl, events, i, n - 1);
      assert !Ends(ttl, events, i, n - 1);
    }
  }

  /** Two Begins can both win a key only if the first one's reservation ended, by expiry or Release. */
  lemma BegunsAreSeparated(ttl: int, events: seq<Event>, i: nat, j: nat)
    requires Won(ttl, events, i) && Won(ttl, events, j) && i < j && events[i].key == events[j].key
    ensures exists m :: i < m <= j && Ends(ttl, events, i, m)
  {
    hide Run;
    if forall m :: i < m < j ==> !Ends(ttl, events, i, m) {
      ReservationStands(ttl, events, i, j);
      assert Ends(ttl, events, i, j);
    }
  }

  /** The Begin that the key's present row comes from. */
  predicate Owner(ttl: int, events: seq<Event>, key: Text, i: nat, n: nat) {
    && n <= |events|
    && i < n && Won(ttl, events, i) && events[i].key == key
    && forall m :: i < m < n && events[m].Reserve? && events[m].key == key ==> !Won(ttl, events, m)
  }

  lemma RowStep(ttl: int, keys: Keys, e: Event, key: Text)
    requires key in Apply(ttl, keys, e)
    requires !(e.Reserve? && e.key == key && Wins(keys, key, e.now))
    ensures key in keys
    ensures Apply(ttl, keys, e)[key]
         == if e.Complete? && e.key == key then keys[key].(entry := Some(e.entry)) else keys[key]
  {
  }

  lemma OwnerIsEarlier(ttl: int, events: seq<Event>, key: Text, i: nat, n: nat)
    requires Owner(ttl, events, key, i, n)
    ensures i < n <= |events| && events[i].Reserve?
  {
  }

  lemma NewOwner(ttl: int, events: seq<Event>, key: Text, n: nat) returns (i: nat)
    requires n < |events| && Won(ttl, events, n) && events[n].key == key
    ensures i == n && Owner(ttl, events, key, i, n + 1)
  {
    i := n;
  }

  lemma OwnerStays(ttl: int, events: seq<Event>, key: Text, i: nat, n: nat)
    requires n < |events| && Owner(ttl, events, key, i, n)
    requires !(events[n].Reserve? && events[n].key == key && Won(ttl, events, n))
    ensures Owner(ttl, events, key, i, n + 1)
  {
    hide Won;
  }

  /** Every row present belongs to the latest Begin that won its key, and holds what was completed since. */
  lemma {:induction false} RowsHaveOwners(ttl: int, events: seq<Event>, key: Text, n: nat) returns (i: nat)
    requires n <= |events| && key in Run(ttl, events[..n])
    ensures Owner(ttl, events, key, i, n)
    ensures Run(ttl, events[..n])[key] == KeyRow(Expiry(ttl, events, i), LastCompletion(events, key, i + 1, n))
  {
    if n == 0 {
      RunStarts(ttl, events);
      assert false;
    } else {
      hide Run, Owner;
      RunStep(ttl, events, n - 1);
      if Won(ttl, events, n - 1) && events[n - 1].key == key {
        i := NewOwner(ttl, events, key, n - 1);
      } else {
        hide Apply;
        RowStep(ttl, Run(ttl, events[..n - 1]), events[n - 1], key);
        i := RowsHaveOwners(ttl, events, key, n - 1);
        hide Won;
        OwnerStays(ttl, events, key, i, n - 1);
        assert i < n - 1 by {
          OwnerIsEarlier(ttl, events, key, i, n - 1);
        }
      }
    }
  }

  lemma {:induction false} CompletionWasStored(events: seq<Event>, key: Text, lo: nat, hi: nat) returns (m: nat)
    requires hi <= |events| && LastCompletion(events, key, lo, hi).Some?
    ensures lo <= m < hi && events[m].Complete? && events[m].key == key
    ensures LastCompletion(events, key, lo, hi) == Some(events[m].entry)
    ensures forall k :: m < k < hi ==> !(events[k].Complete? && events[k].key == key)
    decreases hi
  {
    if events[hi - 1].Complete? && events[hi - 1].key == key {
      m := hi - 1;
    } else {
      m := CompletionWasStored(events, key, lo, hi - 1);
    }
  }

  /** A replayed response was stored after the latest Begin that won the key: never one from before a re-reservation. */
  lemma CompletedIsCurrent(ttl: int, events: seq<Event>, key: Text, n: nat) returns (i: nat, m: nat)
    requires n <= |events| && Found(Run(ttl, events[..n]), key).Completed?
    ensures Owner(ttl, events, key, i, n) && i < m < n
    ensures events[m].Complete? && events[m].key == key && Found(Run(ttl, events[..n]), key) == Completed(events[m].entry)
    ensures forall k :: m < k < n ==> !(events[k].Complete? && events[k].key == key)
  {
    hide Run;
    i := RowsHaveOwners(ttl, events, key, n);
    m := CompletionWasStored(events, key, i + 1, n);
  }

  /** The converse: a response stays replayable until its reservation ends. */
  lemma CompletedStays(ttl: int, events: seq<Event>, i: nat, m: nat, n: nat)
    requires Won(ttl, events, i) && i < m < n <= |events|
    requires events[m].Complete? && events[m].key == events[i].key
    requires forall k :: i < k < n ==> !Ends(ttl, events, i, k)
    ensures Found(Run(ttl, events[..n]), events[i].key).Completed?
  {
    hide Run;
    ReservationStands(ttl, events, i, n);
    StaysCompleted(events, events[i].key, i + 1, m, n);
  }

  lemma {:induction false} StaysCompleted(events: seq<Event>, key: Text, lo: nat, m: nat, hi: nat)
    requires lo <= m < hi <= |events| && events[m].Complete? && events[m].key == key
    ensures LastCompletion(events, key, lo, hi).Some?
    decreases hi
  {
    if m < hi - 1 {
      StaysCompleted(events, key, lo, m, hi - 1);
    }
  }

  // ---- whose response is replayed

  /** Only a handler whose Begin won the key completes it. */
  ghost predicate Answered(ttl: int, events: seq<Event>) {
    forall m :: 0 <= m < |events| ==> AnswersWin(ttl, events, m)
  }

  ghost predicate AnswersWin(ttl: int, events: seq<Event>, m: nat)
    requires m < |events|
  {
    events[m].Complete? ==>
      events[m].handler < m && Won(ttl, events, events[m].handler) && events[events[m].handler].key == events[m].key
  }

  /** The reservation won at i has met nothing, before n, that ends it. */
  ghost predicate Stands(ttl: int, events: seq<Event>, i: nat, n: nat)
    requires i < |events| && n <= |events| && events[i].Reserve?
  {
    forall k :: i < k < n ==> !Ends(ttl, events, i, k)
  }

  lemma StandingOwns(ttl: int, events: seq<Event>, i: nat, n: nat)
    requires Won(ttl, events, i) && i < n <= |events| && Stands(ttl, events, i, n)
    ensures events[i].key in Run(ttl, events[..n]) && Owner(ttl, events, events[i].key, i, n)
  {
    hide Run, Wins, Ends;
    ReservationStands(ttl, events, i, n);
    forall m | i < m < n && events[m].Reserve? && events[m].key == events[i].key
      ensures !Won(ttl, events, m)
    {
      if Won(ttl, events, m) {
        BegunsAreSeparated(ttl, events, i, m);
      }
    }
  }

  lemma {:induction false} EndedLoses(ttl: int, events: seq<Event>, i: nat, k: nat, n: nat)
    requires Won(ttl, events, i) && i < k < n <= |events| && Stands(ttl, events, i, k) && Ends(ttl, events, i, k)
    requires forall m :: k <= m < n && events[m].Reserve? && events[m].key == events[i].key ==> !Won(ttl, events, m)
    ensures events[i].key !in Run(ttl, events[..n])
    decreases n
  {
    hide Run;
    RunStep(ttl, events, n - 1);
    if n == k + 1 {
      ReservationStands(ttl, events, i, k);
    } else {
      EndedLoses(ttl, events, i, k, n - 1);
      assert events[n - 1].Reserve? && events[n - 1].key == events[i].key ==> !Won(ttl, events, n - 1);
    }
  }

  lemma {:induction false} FirstEnd(ttl: int, events: seq<Event>, i: nat, n: nat) returns (k: nat)
    requires i < n <= |events| && events[i].Reserve? && !Stands(ttl, events, i, n)
    ensures i < k < n && Ends(ttl, events, i, k) && Stands(ttl, events, i, k)
    decreases n
  {
    hide Ends;
    if Stands(ttl, events, i, n - 1) {
      k := n - 1;
    } else {
      k := FirstEnd(ttl, events, i, n - 1);
    }
  }

  /** A winner still owns the row exactly when nothing has ended its reservation. */
  lemma OwnsIffStands(ttl: int, events: seq<Event>, i: nat, n: nat)
    requires Won(ttl, events, i) && i < n <= |events|
    ensures Stands(ttl, events, i, n)
       <==> events[i].key in Run(ttl, events[..n]) && Owner(ttl, events, events[i].key, i, n)
  {
    hide Run, Ends, Wins;
    if Stands(ttl, events, i, n) {
      StandingOwns(ttl, events, i, n);
    } else {
      var k := FirstEnd(ttl, events, i, n);
      if Owner(ttl, events, events[i].key, i, n) {
        EndedLoses(ttl, events, i, k, n);
      }
    }
  }

  lemma OneOwner(ttl: int, events: seq<Event>, key: Text, i: nat, j: nat, m: nat, n: nat)
    requires Owner(ttl, events, key, i, n) && Owner(ttl, events, key, j, m) && i < m <= n
    ensures i == j
  {
    hide Run, Wins;
  }

  /**
   Over every run of handlers that complete what they began: a replayed response is the present holder's own
   exactly when the reservation of the handler that stored it had not ended when it did.
   */
  lemma ReplayIsOwnIff(ttl: int, events: seq<Event>, key: Text, n: nat) returns (i: nat, m: nat)
    requires Answered(ttl, events) && n <= |events| && Found(Run(ttl, events[..n]), key).Completed?
    ensures Owner(ttl, events, key, i, n) && i < m < n
    ensures events[m].Complete? && events[m].key == key && Found(Run(ttl, events[..n]), key) == Completed(events[m].entry)
    ensures forall k :: m < k < n ==> !(events[k].Complete? && events[k].key == key)
    ensures events[m].handler < m && Won(ttl, events, events[m].handler)
    ensures events[m].handler == i <==> Stands(ttl, events, events[m].handler, m)
  {
    hide Run, Ends, Won, Owner, Stands;
    i, m := CompletedIsCurrent(ttl, events, key, n);
    var j := events[m].handler;
    assert AnswersWin(ttl, events, m);
    OwnerWon(ttl, events, key, i, n);
    OwnsIffStands(ttl, events, j, m);
    if j == i {
      OwnsIffStands(ttl, events, i, n);
      StandsEarlier(ttl, events, i, m, n);
    }
    if Owner(ttl, events, key, j, m) {
      OneOwner(ttl, events, key, i, j, m, n);
    }
  }

  lemma OwnerWon(ttl: int, events: seq<Event>, key: Text, i: nat, n: nat)
    requires Owner(ttl, events, key, i, n)
    ensures i < n <= |events| && Won(ttl, events, i) && events[i].key == key && events[i].Reserve?
  {
  }

  lemma StandsEarlier(ttl: int, events: seq<Event>, i: nat, m: nat, n: nat)
    requires i < m <= n <= |events| && events[i].Reserve? && Stands(ttl, events, i, n)
    ensures Stands(ttl, events, i, m)
  {
    hide Ends;
  }

  /** Every handler completes while its own reservation still stands. */
  ghost predicate Prompt(ttl: int, events: seq<Event>) {
    forall m :: 0 <= m < |events| && events[m].Complete? ==> PromptAt(ttl, events, m)
  }

  ghost predicate PromptAt(ttl: int, events: seq<Event>, m: nat)
    requires m < |events| && events[m].Complete?
  {
    var i := events[m].handler;
    i < m && Won(ttl, events, i) && events[i].key == events[m].key && Stands(ttl, events, i, m)
  }

  /** Then every replay is the response of the handler that holds the key. */
  lemma PromptReplaysAreOwn(ttl: int, events: seq<Event>, key: Text, n: nat) returns (i: nat, m: nat)
    requires Prompt(ttl, events) && n <= |events| && Found(Run(ttl, events[..n]), key).Completed?
    ensures Owner(ttl, events, key, i, n) && i < m < n && events[m].Complete? && events[m].handler == i
    ensures Found(Run(ttl, events[..n]), key) == Completed(events[m].entry)
  {
    hide Run, Won, Owner, Stands, Found;
    forall k: nat | k < |events|
      ensures AnswersWin(ttl, events, k)
    {
      assert events[k].Complete? ==> PromptAt(ttl, events, k);
    }
    i, m := ReplayIsOwnIff(ttl, events, key, n);
    assert PromptAt(ttl, events, m);
  }

  /**
   Complete does not ask who holds the key.  Here the handler of the first Begin outlives its reservation, and
   its response is replayed to the holder of the second.
   */
  lemma LateCompletionIsReplayed(ttl: int, key: Text, first: Entry)
    requires ttl > 0
    ensures var events := [Reserve(key, 0), Reserve(key, ttl), Complete(key, first, 0)];
            && Answered(ttl, events) && Owner(ttl, events, key, 1, 3) && events[2].handler == 0
            && !Stands(ttl, events, 0, 2)
            && Found(Run(ttl, events), key) == Completed(first)
  {
    var events := [Reserve(key, 0), Reserve(key, ttl), Complete(key, first, 0)];
    assert events[..0] == [] && events[..3] == events;
    RunStep(ttl, events, 0);
    RunStep(ttl, events, 1);
    RunStep(ttl, events, 2);
    assert Ends(ttl, events, 0, 1);
  }
}
