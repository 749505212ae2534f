/**
 The thread registry: a counter and the ordered list of thread ids handed
 out so far. Asking for the default id "user_session" yields that name with
 the current counter appended; any other id is used as given. An id not yet
 listed is appended and the counter advances; an id already listed changes
 nothing.

 `Registry` and `Register` are the registry's value and one call on it;
 `ThreadDB` is the object the program keeps, whose `Add` is proved to do
 exactly what `Register` says.
 */
module ThreadManager {
  import opened Builtins

  /** The id `add` uses when the caller names none. */
  const DefaultId: string := "user_session"

  predicate NoDuplicates(xs: seq<string>) {
    forall i, j :: 0 <= i < j < |xs| ==> xs[i] != xs[j]
  }

  /** The registry's state: the counter and the ids in the order they were added. */
  datatype Registry = Registry(counter: nat, threads: seq<string>) {
    /** Every id is listed once, and the counter is the number of ids listed. */
    predicate Valid() {
      counter == |threads| && NoDuplicates(threads)
    }
  }

  /**
   The id a call works with: the default name requests "user_session_<counter>",
   any other name stands for itself. Either way the result is never the bare
   default name, and a synthesized id carries the counter as its decimal
   suffix, written without leading zeros.
   */
  function ResolveId(id: string, counter: nat): (r: string)
    ensures r != DefaultId
    ensures id != DefaultId ==> r == id
    ensures id == DefaultId ==>
      DefaultId + "_" <= r && |r| > |DefaultId| + 1 &&
      AllDigits(r[|DefaultId| + 1..]) && ParseNat(r[|DefaultId| + 1..]) == counter &&
      (r[|DefaultId| + 1] == '0' ==> r == DefaultId + "_0")
  {
    if id == DefaultId then
      var r := id + "_" + NatToString(counter);
      assert r[|DefaultId| + 1..] == NatToString(counter);
      ParseNatToString(counter);
      r
    else id
  }

  /** One call of `add`: the registry afterwards and the id returned. */
  function Register(reg: Registry, id: string): (res: (Registry, string))
    ensures res.1 == ResolveId(id, reg.counter) && res.1 in res.0.threads
    ensures reg.threads <= res.0.threads && |res.0.threads| <= |reg.threads| + 1
  {
    var key := ResolveId(id, reg.counter);
    if key in reg.threads then (reg, key)
    else (Registry(reg.counter + 1, reg.threads + [key]), key)
  }

  /**
   What a call does: the returned id is listed afterwards; an id that was
   already listed leaves the registry as it was; a new one is appended after
   the earlier ids, which stay in place, and the counter grows by one.
   */
  lemma RegisterEffect(reg: Registry, id: string)
    ensures var (after, r) := Register(reg, id);
      r == ResolveId(id, reg.counter) &&
      r in after.threads &&
      (r in reg.threads ==> after == reg) &&
      (r !in reg.threads ==>
        after.counter == reg.counter + 1 &&
        |after.threads| == |reg.threads| + 1 &&
        after.threads[..|reg.threads|] == reg.threads &&
        after.threads[|reg.threads|] == r)
  {
    var (after, r) := Register(reg, id);
    if r !in reg.threads {
      assert after.threads[..|reg.threads|] == reg.threads;
    }
  }

  /** Every call keeps the ids distinct and the counter equal to their number. */
  lemma RegisterKeepsValid(reg: Registry, id: string)
    requires reg.Valid()
    ensures Register(reg, id).0.Valid()
  {
    var (after, r) := Register(reg, id);
    if r !in reg.threads {
      forall i, j | 0 <= i < j < |after.threads| ensures after.threads[i] != after.threads[j] {
        if j == |reg.threads| {
          assert after.threads[i] == reg.threads[i];
        }
      }
    }
  }

  /** Registering the id a call returned, again, changes nothing and returns it again. */
  lemma RegisterIdempotent(reg: Registry, id: string)
    ensures var (after, r) := Register(reg, id);
      Register(after, r) == (after, r)
  {
  }

  /** A fresh registry hands out "user_session_0", then "user_session_1", for two default calls. */
  lemma FreshDefaultIds()
    ensures Register(Registry(0, []), DefaultId) == (Registry(1, ["user_session_0"]), "user_session_0")
    ensures Register(Registry(1, ["user_session_0"]), DefaultId) ==
      (Registry(2, ["user_session_0", "user_session_1"]), "user_session_1")
  {
    assert DigitChar(0) == '0' && DigitChar(1) == '1';
    assert NatToString(0) == "0" && NatToString(1) == "1";
    var id0, id1 := "user_session_0", "user_session_1";
    assert ResolveId(DefaultId, 0) == DefaultId + "_" + "0" == id0;
    assert ResolveId(DefaultId, 1) == DefaultId + "_" + "1" == id1;
    assert [] + [id0] == [id0];
    assert id1 !in [id0];
    assert [id0] + [id1] == [id0, id1];
  }

  /**
   Synthesized ids are not guaranteed to be new: once "user_session_1" has been
   added by name, a default call at counter 1 returns that id and leaves the
   counter at 1, so default calls keep returning it until a new id is added by
   name.
   */
  lemma DefaultIdCanCollide()
    ensures var reg := Register(Registry(0, []), "user_session_1").0;
      reg == Registry(1, ["user_session_1"]) &&
      Register(reg, DefaultId) == (reg, "user_session_1")
  {
    assert DigitChar(1) == '1';
    assert NatToString(1) == "1";
    assert ResolveId(DefaultId, 1) == DefaultId + "_" + "1" == "user_session_1";
  }

  /** The registry object: a private counter and the list of ids. */
  class ThreadDB {
    var numThreads: nat
    var threads: seq<string>

    /** The registry value the object holds. */
    function State(): Registry
      reads this
    {
      Registry(numThreads, threads)
    }

    ghost predicate Valid()
      reads this
    {
      State().Valid()
    }

    constructor ()
      ensures Valid()
      ensures numThreads == 0 && threads == []
    {
      numThreads := 0;
      threads := [];
    }

    /** `add(id)`: resolve the id, record it if new, return it. */
    method Add(id: string) returns (r: string)
      requires Valid()
      modifies this
      ensures Valid()
      ensures (State(), r) == Register(old(State()), id)
      ensures r == ResolveId(id, old(numThreads)) && r in threads
      ensures r in old(threads) ==> threads == old(threads) && numThreads == old(numThreads)
      ensures r !in old(threads) ==> threads == old(threads) + [r] && numThreads == old(numThreads) + 1
    {
      RegisterKeepsValid(State(), id);
      var key := id;
      if key == DefaultId {
        key := key + "_" + NatToString(numThreads);
      }
      if key !in threads {
        threads := threads + [key];
        numThreads := numThreads + 1;
      }
      r := key;
    }

    /** `add()` with no argument: the default id. */
    method AddDefault() returns (r: string)
      requires Valid()
      modifies this
      ensures Valid()
      ensures (State(), r) == Register(old(State()), DefaultId)
      ensures r == DefaultId + "_" + NatToString(old(numThreads))
    {
      r := Add(DefaultId);
    }
  }

  /**
   A client of the object: adding "user_session_1" by name, then asking twice
   for a default id, yields that same id three times, with one id recorded.
   */
  method CollidingDefaultId() returns (first: string, second: string, third: string, count: nat)
    ensures first == "user_session_1" && second == first && third == first
    ensures count == 1
  {
    var db := new ThreadDB();
    first := db.Add("user_session_1");
    assert NatToString(1) == "1";
    second := db.AddDefault();
    third := db.AddDefault();
    count := db.numThreads;
  }
}
