/** Calls that join an enclosing transaction. */
module IdempotencySessions {
  import opened Common
  import opened Idempotency

  /** A call on its own, or an enclosing transaction whose operation makes calls and then returns or throws. */
  datatype Session<!W, !V> = Own(t: Timed<W, V>) | Outer(calls: seq<Timed<W, V>>, commits: bool)

  ghost function After<W, V>(db: Db<W>, s: Session<W, V>, ttl: nat, codec: Codec<W, V>): Db<W> {
    match s
    case Own(t) => Transact(db, t.call, t.now, ttl, codec).db
    case Outer(calls, commits) => if commits then Joined(db, calls, ttl, codec) else db
  }

  ghost function AfterAll<W, V>(db: Db<W>, sessions: seq<Session<W, V>>, ttl: nat, codec: Codec<W, V>): Db<W>
    decreases |sessions|
  {
    if sessions == [] then db else AfterAll(After(db, sessions[0], ttl, codec), sessions[1..], ttl, codec)
  }

  // ---------------------------------------------------------------- one joined call

  /** The call gets as far as its operation: its key is new, or its own unfinished record has expired. */
  predicate Runs<W, V>(db: Db<W>, t: Timed<W, V>) {
    && KeyOf(t.call).Ok?
    && var k := KeyOf(t.call).value;
       k !in db.records
       || (db.records[k].fingerprint == t.call.fingerprint && db.records[k].state == InProgress && db.records[k].expiresAt <= t.now)
  }

  /** The operation returns, and its result can be stored. */
  predicate Finishes<W, V>(call: Call<W, V>, world: W, codec: Codec<W, V>) {
    match call.operation(world)
    case Threw(_, _) => false
    case Returned(after, value) => codec.encode(value, after).Ok? && ValidReference(codec.encode(value, after).value)
  }

  /** A joined call changes something exactly by running its operation, whose effects stay whether or not it finishes. */
  lemma JoinedCallEffects<W, V>(db: Db<W>, t: Timed<W, V>, ttl: nat, codec: Codec<W, V>)
    ensures var o := Inside(db, t.call, t.now, ttl, codec);
      && (!Runs(db, t) ==> o.db == db)
      && (Runs(db, t) ==> o.db.world == t.call.operation(db.world).world)
      && (o.reply.Ok? && !o.reply.value.replayed <==> Runs(db, t) && Finishes(t.call, db.world, codec))
      && (Runs(db, t) ==>
           o.db.records == db.records[KeyOf(t.call).value := o.db.records[KeyOf(t.call).value]]
           && o.db.records[KeyOf(t.call).value].fingerprint == t.call.fingerprint
           && o.db.records[KeyOf(t.call).value].expiresAt == t.now + ttl
           && (o.db.records[KeyOf(t.call).value].state == Done <==> Finishes(t.call, db.world, codec))
           && (o.db.records[KeyOf(t.call).value].state == Done ==> o.db.records[KeyOf(t.call).value].reference.Some?))
  {
    hide ParseScope, SafeIdentifier, Sha256Text, ValidReference;
  }

  /** It leaves no record unfinished exactly when it is refused, its key has a record, or its operation finishes. */
  lemma SwallowedFailureStaysInProgress<W, V>(db: Db<W>, t: Timed<W, V>, ttl: nat, codec: Codec<W, V>)
    requires Settled(db)
    ensures Settled(Inside(db, t.call, t.now, ttl, codec).db)
      <==> KeyOf(t.call).Err? || KeyOf(t.call).value in db.records || Finishes(t.call, db.world, codec)
  {
    hide KeyOf, Finishes, Inside;
    JoinedCallEffects(db, t, ttl, codec);
    if Runs(db, t) {
      var after := Inside(db, t.call, t.now, ttl, codec).db;
      assert KeyOf(t.call).value in after.records;
    }
  }

  // ---------------------------------------------------------------- many joined calls

  /** Every call that runs its operation finishes it. */
  ghost predicate AllFinish<W, V>(db: Db<W>, calls: seq<Timed<W, V>>, ttl: nat, codec: Codec<W, V>)
    decreases |calls|
  {
    calls == []
    || (&& (Runs(db, calls[0]) ==> Finishes(calls[0].call, db.world, codec))
        && AllFinish(Inside(db, calls[0].call, calls[0].now, ttl, codec).db, calls[1..], ttl, codec))
  }

  /** All records are finished after every one of the calls exactly when every operation that runs finishes. */
  lemma {:induction false} SettledThroughout<W, V>(db: Db<W>, calls: seq<Timed<W, V>>, ttl: nat, codec: Codec<W, V>)
    requires Settled(db)
    ensures AllFinish(db, calls, ttl, codec) <==> forall i :: 0 <= i <= |calls| ==> Settled(Joined(db, calls[..i], ttl, codec))
    decreases |calls|
  {
    hide Settled, Inside, KeyOf, Finishes;
    if calls == [] {
      assert calls[..0] == [];
    } else {
      var next, rest := Inside(db, calls[0].call, calls[0].now, ttl, codec).db, calls[1..];
      assert Runs(db, calls[0]) <==> KeyOf(calls[0].call).Ok? && KeyOf(calls[0].call).value !in db.records by {
        OnlyNewKeysRun(db, calls[0]);
      }
      SwallowedFailureStaysInProgress(db, calls[0], ttl, codec);
      forall i | 1 <= i <= |calls| ensures Joined(db, calls[..i], ttl, codec) == Joined(next, rest[..i - 1], ttl, codec) {
        assert calls[..i][1..] == rest[..i - 1] && calls[..i][0] == calls[0];
      }
      if Settled(next) {
        SettledThroughout(next, rest, ttl, codec);
        if AllFinish(db, calls, ttl, codec) {
          forall i | 0 <= i <= |calls| ensures Settled(Joined(db, calls[..i], ttl, codec)) {
            if i == 0 {
              assert calls[..0] == [];
            } else {
              assert Settled(Joined(next, rest[..i - 1], ttl, codec));
            }
          }
        } else {
          var j :| 0 <= j <= |rest| && !Settled(Joined(next, rest[..j], ttl, codec));
          assert !Settled(Joined(db, calls[..j + 1], ttl, codec));
        }
      } else {
        assert rest[..0] == [];
        assert Joined(db, calls[..1], ttl, codec) == next;
      }
    }
  }

  // In a settled database only a new key gets as far as its operation.
  lemma OnlyNewKeysRun<W, V>(db: Db<W>, t: Timed<W, V>)
    requires Settled(db)
    ensures Runs(db, t) <==> KeyOf(t.call).Ok? && KeyOf(t.call).value !in db.records
  {
  }

  // ---------------------------------------------------------------- how often an operation runs

  ghost function JoinedRuns<W, V>(db: Db<W>, calls: seq<Timed<W, V>>, k: Key, ttl: nat, codec: Codec<W, V>): nat
    decreases |calls|
  {
    if calls == [] then 0
    else
      (if Runs(db, calls[0]) && KeyOf(calls[0].call) == Ok(k) then 1 else 0)
      + JoinedRuns(Inside(db, calls[0].call, calls[0].now, ttl, codec).db, calls[1..], k, ttl, codec)
  }

  /** How many runs of operations under the key have their effects committed by the session. */
  ghost function SessionRuns<W, V>(db: Db<W>, s: Session<W, V>, k: Key, ttl: nat, codec: Codec<W, V>): nat {
    match s
    case Own(t) => if Effective(db, t, ttl, codec) && KeyOf(t.call) == Ok(k) then 1 else 0
    case Outer(calls, commits) => if commits then JoinedRuns(db, calls, k, ttl, codec) else 0
  }

  ghost function AllRuns<W, V>(db: Db<W>, sessions: seq<Session<W, V>>, k: Key, ttl: nat, codec: Codec<W, V>): nat
    decreases |sessions|
  {
    if sessions == [] then 0
    else SessionRuns(db, sessions[0], k, ttl, codec) + AllRuns(After(db, sessions[0], ttl, codec), sessions[1..], k, ttl, codec)
  }

  ghost predicate IsDone<W>(db: Db<W>, k: Key) {
    k in db.records && db.records[k].state == Done
  }

  lemma {:induction false} DoneInside<W, V>(db: Db<W>, calls: seq<Timed<W, V>>, k: Key, ttl: nat, codec: Codec<W, V>)
    requires IsDone(db, k)
    ensures JoinedRuns(db, calls, k, ttl, codec) == 0
    ensures IsDone(Joined(db, calls, ttl, codec), k) && Joined(db, calls, ttl, codec).records[k] == db.records[k]
    decreases |calls|
  {
    hide Inside, KeyOf, Finishes;
    if calls != [] {
      JoinedCallEffects(db, calls[0], ttl, codec);
      DoneInside(Inside(db, calls[0].call, calls[0].now, ttl, codec).db, calls[1..], k, ttl, codec);
    }
  }

  lemma DoneInSession<W, V>(db: Db<W>, s: Session<W, V>, k: Key, ttl: nat, codec: Codec<W, V>)
    requires IsDone(db, k)
    ensures SessionRuns(db, s, k, ttl, codec) == 0
    ensures IsDone(After(db, s, ttl, codec), k) && After(db, s, ttl, codec).records[k] == db.records[k]
  {
    hide Inside, KeyOf, Finishes;
    match s {
      case Own(t) => JoinedCallEffects(db, t, ttl, codec);
      case Outer(calls, _) => DoneInside(db, calls, k, ttl, codec);
    }
  }

  /** A finished record is never run again, whatever sessions follow. */
  lemma {:induction false} DoneForGood<W, V>(db: Db<W>, sessions: seq<Session<W, V>>, k: Key, ttl: nat, codec: Codec<W, V>)
    requires IsDone(db, k)
    ensures AllRuns(db, sessions, k, ttl, codec) == 0
    ensures IsDone(AfterAll(db, sessions, ttl, codec), k) && AfterAll(db, sessions, ttl, codec).records[k] == db.records[k]
    decreases |sessions|
  {
    hide SessionRuns, After, IsDone;
    if sessions != [] {
      DoneInSession(db, sessions[0], k, ttl, codec);
      DoneForGood(After(db, sessions[0], ttl, codec), sessions[1..], k, ttl, codec);
    } else {
      KeptAsIs(db, k);
    }
  }

  lemma KeptAsIs<W>(db: Db<W>, k: Key)
    requires IsDone(db, k)
    ensures k in db.records
  {
  }

  /** One enclosing transaction with one call in it, which runs. */
  lemma OneJoinedRun<W, V>(db: Db<W>, t: Timed<W, V>, k: Key, ttl: nat, codec: Codec<W, V>)
    requires Runs(db, t) && KeyOf(t.call) == Ok(k)
    ensures var s := Outer([t], true);
      && SessionRuns(db, s, k, ttl, codec) == 1
      && After(db, s, ttl, codec) == Inside(db, t.call, t.now, ttl, codec).db
  {
    hide Inside, KeyOf, Runs;
    var next := Inside(db, t.call, t.now, ttl, codec).db;
    assert [t][1..] == [] && Joined(next, [], ttl, codec) == next && JoinedRuns(next, [], k, ttl, codec) == 0;
    assert Joined(db, [t], ttl, codec) == Joined(next, [t][1..], ttl, codec);
    assert JoinedRuns(db, [t], k, ttl, codec) == 1 + JoinedRuns(next, [t][1..], k, ttl, codec);
  }

  /**
   * After a call with a new key joined a transaction that committed, its operation is sure to have run at most once, whatever
   * sessions follow, exactly when it finished. If it did not, its effects are committed without a result, and the same call,
   * made again once the record has expired, runs it once more.
   */
  lemma JoinedCallIsOnceExactly<W(!new), V(!new)>(db: Db<W>, t: Timed<W, V>, k: Key, ttl: nat, codec: Codec<W, V>)
    requires KeyOf(t.call) == Ok(k) && k !in db.records
    ensures (forall rest: seq<Session<W, V>> :: AllRuns(db, [Outer([t], true)] + rest, k, ttl, codec) <= 1)
      <==> Finishes(t.call, db.world, codec)
  {
    hide Inside, KeyOf, SessionRuns, After, Finishes;
    var first := Outer([t], true);
    OneJoinedRun(db, t, k, ttl, codec);
    JoinedCallEffects(db, t, ttl, codec);
    var after := After(db, first, ttl, codec);
    forall rest: seq<Session<W, V>>
      ensures AllRuns(db, [first] + rest, k, ttl, codec) == 1 + AllRuns(after, rest, k, ttl, codec)
    {
      assert ([first] + rest)[1..] == rest;
    }
    if Finishes(t.call, db.world, codec) {
      forall rest: seq<Session<W, V>> ensures AllRuns(after, rest, k, ttl, codec) == 0 {
        DoneForGood(after, rest, k, ttl, codec);
      }
    } else {
      var retry := Timed(t.call, t.now + ttl);
      OneJoinedRun(after, retry, k, ttl, codec);
      var rest := [Outer([retry], true)];
      assert AllRuns(after, rest, k, ttl, codec) == 1;
      assert AllRuns(db, [first] + rest, k, ttl, codec) == 2;
    }
  }

  // ---------------------------------------------------------------- at most once, across sessions of both kinds

  /** In every transaction that commits, each joined call that runs its operation finishes it. */
  ghost predicate AllSessionsFinish<W, V>(db: Db<W>, sessions: seq<Session<W, V>>, ttl: nat, codec: Codec<W, V>)
    decreases |sessions|
  {
    sessions == []
    || (&& (sessions[0].Outer? && sessions[0].commits ==> AllFinish(db, sessions[0].calls, ttl, codec))
        && AllSessionsFinish(After(db, sessions[0], ttl, codec), sessions[1..], ttl, codec))
  }

  /** The record of a key and how often its operation ran, before and after. */
  ghost predicate Once<W>(db: Db<W>, after: Db<W>, k: Key, runs: nat) {
    && Settled(after)
    && runs == (if k !in db.records && k in after.records then 1 else 0)
    && (k in db.records ==> k in after.records && after.records[k] == db.records[k])
  }

  lemma {:induction false} JoinedOnce<W, V>(db: Db<W>, calls: seq<Timed<W, V>>, k: Key, ttl: nat, codec: Codec<W, V>)
    requires Settled(db) && AllFinish(db, calls, ttl, codec)
    ensures Once(db, Joined(db, calls, ttl, codec), k, JoinedRuns(db, calls, k, ttl, codec))
    decreases |calls|
  {
    hide Inside, KeyOf, Finishes, Runs;
    if calls != [] {
      var next := Inside(db, calls[0].call, calls[0].now, ttl, codec).db;
      OnlyNewKeysRun(db, calls[0]);
      JoinedCallEffects(db, calls[0], ttl, codec);
      SwallowedFailureStaysInProgress(db, calls[0], ttl, codec);
      JoinedOnce(next, calls[1..], k, ttl, codec);
    }
  }

  lemma SessionOnce<W, V>(db: Db<W>, s: Session<W, V>, k: Key, ttl: nat, codec: Codec<W, V>)
    requires Settled(db) && (s.Outer? && s.commits ==> AllFinish(db, s.calls, ttl, codec))
    ensures Once(db, After(db, s, ttl, codec), k, SessionRuns(db, s, k, ttl, codec))
  {
    hide KeyOf, Transact, Effective;
    match s {
      case Own(t) => CallCommits(db, t, ttl, codec);
      case Outer(calls, commits) =>
        if commits {
          JoinedOnce(db, calls, k, ttl, codec);
        }
    }
  }

  /**
   * As long as no enclosing transaction commits over a joined call that ran and did not finish, each key's operation runs at
   * most once, exactly once when a record appears, and no record is left in progress.
   */
  lemma {:induction false} AtMostOnceAcross<W, V>(db: Db<W>, sessions: seq<Session<W, V>>, k: Key, ttl: nat, codec: Codec<W, V>)
    requires Settled(db) && AllSessionsFinish(db, sessions, ttl, codec)
    ensures Once(db, AfterAll(db, sessions, ttl, codec), k, AllRuns(db, sessions, k, ttl, codec))
    decreases |sessions|
  {
    hide After, SessionRuns, Settled, AllFinish;
    if sessions != [] {
      SessionOnce(db, sessions[0], k, ttl, codec);
      AtMostOnceAcross(After(db, sessions[0], ttl, codec), sessions[1..], k, ttl, codec);
    }
  }

  // ---------------------------------------------------------------- a failure that is swallowed

  /** An operation that counts its runs and then throws. */
  function Throwing(fingerprint: string): Call<int, nat> {
    Call("a:b", "key", fingerprint, (world: int) => Threw(world + 1, "provider-write-failed"))
  }

  lemma SplitStep(c: char, text: string, parts: seq<string>)
    requires Split(text) == parts
    ensures Split([c] + text) == if c == ':' then [""] + parts else [[c] + parts[0]] + parts[1..]
  {
    assert ([c] + text)[1..] == text;
  }

  lemma ScopeParts()
    ensures Split("a:b") == ["a", "b"]
  {
    hide SafeIdentifier;
    assert Split("") == [""];
    hide Split;
    SplitStep('b', "", [""]);
    assert ['b'] + "" == "b" && [""][1..] == [];
    assert Split("b") == ["b"];
    SplitStep(':', "b", ["b"]);
    assert [':'] + "b" == ":b" && [""] + ["b"] == ["", "b"];
    assert Split(":b") == ["", "b"];
    SplitStep('a', ":b", ["", "b"]);
    assert ['a'] + ":b" == "a:b" && ['a'] + "" == "a" && ["a"] + ["b"] == ["a", "b"];
  }

  lemma ThrowingIsAccepted(fingerprint: string)
    requires Sha256Text(fingerprint)
    ensures KeyOf(Throwing(fingerprint)) == Ok(Key("a", "", "b", "key"))
  {
    ScopeParts();
    hide Sha256Text, Split;
    assert SafeIdentifier("a", 96) && SafeIdentifier("b", 96) && SafeIdentifier("key", 128);
  }

  /**
   * Joined to transactions that swallow its failure and commit, its effects are committed twice: the first commit leaves a
   * record in progress, and once that has expired the second runs the operation again.
   */
  lemma SwallowedFailureRunsTwice(fingerprint: string, now: int, ttl: nat, codec: Codec<int, nat>)
    requires Sha256Text(fingerprint)
    ensures var k, empty := Key("a", "", "b", "key"), Db(map[], 0);
      var first := Outer([Timed(Throwing(fingerprint), now)], true);
      var second := Outer([Timed(Throwing(fingerprint), now + ttl)], true);
      var once := After(empty, first, ttl, codec);
      && once.world == 1 && k in once.records && once.records[k].state == InProgress
      && AfterAll(empty, [first, second], ttl, codec).world == 2 && AllRuns(empty, [first, second], k, ttl, codec) == 2
  {
    ThrowingIsAccepted(fingerprint);
    hide KeyOf, Sha256Text, Inside, After, SessionRuns;
    var k, empty := Key("a", "", "b", "key"), Db(map[], 0);
    var t, retry := Timed(Throwing(fingerprint), now), Timed(Throwing(fingerprint), now + ttl);
    var first, second := Outer([t], true), Outer([retry], true);
    OneJoinedRun(empty, t, k, ttl, codec);
    JoinedCallEffects(empty, t, ttl, codec);
    var once := After(empty, first, ttl, codec);
    OneJoinedRun(once, retry, k, ttl, codec);
    JoinedCallEffects(once, retry, ttl, codec);
    assert [first, second][1..] == [second] && [second][1..] == [];
    var twice := After(once, second, ttl, codec);
    assert AfterAll(twice, [], ttl, codec) == twice && AfterAll(once, [second], ttl, codec) == AfterAll(twice, [second][1..], ttl, codec);
    assert AllRuns(twice, [], k, ttl, codec) == 0;
    assert AllRuns(once, [second], k, ttl, codec) == 1 + AllRuns(twice, [second][1..], k, ttl, codec);
  }
}
