/** The durable idempotency record. */
module Idempotency {
  // One transaction inserts or locks the record, runs the operation, and stores its result. `W` is everything else
  // the operation may change in the same transaction.

  import opened Common

  /** One caller, operation and key. */
  datatype Key = Key(app: string, service: string, operation: string, key: string)

  datatype Reference = Reference(kind: string, id: string, objectId: Option<string>)

  datatype RecordState = InProgress | Done

  datatype Record = Record(fingerprint: string, state: RecordState, reference: Option<Reference>, expiresAt: int)

  datatype Db<W> = Db(records: map<Key, Record>, world: W)

  /** An operation's end; what it had changed before it threw is still in the transaction. */
  datatype Ran<W, V> = Returned(world: W, value: V) | Threw(world: W, code: string)

  datatype Call<!W, V> = Call(scope: string, key: string, fingerprint: string, operation: W -> Ran<W, V>)

  datatype Codec<!W, !V> = Codec(encode: (V, W) -> Result<Reference>, decode: (Reference, W) -> Result<V>)

  datatype Reply<V> = Reply(replayed: bool, value: V)

  datatype Outcome<W, V> = Outcome(db: Db<W>, reply: Result<Reply<V>>)

  // ---------------------------------------------------------------- checks on the input

  predicate AlphaNumeric(c: char) {
    'A' <= c <= 'Z' || 'a' <= c <= 'z' || '0' <= c <= '9'
  }

  predicate SafeIdentifier(text: string, max: nat) {
    1 <= |text| <= max && AlphaNumeric(text[0])
    && forall c :: c in text[1..] ==> AlphaNumeric(c) || c == '.' || c == '_' || c == ':' || c == '-'
  }

  predicate Sha256Text(text: string) {
    |text| == 64 && forall c :: c in text ==> 'a' <= c <= 'f' || '0' <= c <= '9'
  }

  predicate HexDigits(text: string) {
    forall c :: c in text ==> '0' <= c <= '9' || 'a' <= c <= 'f' || 'A' <= c <= 'F'
  }

  predicate Uuid(text: string) {
    && |text| == 36 && text[8] == text[13] == text[18] == text[23] == '-'
    && HexDigits(text[..8]) && HexDigits(text[9..13]) && HexDigits(text[14..18]) && HexDigits(text[19..23]) && HexDigits(text[24..])
    && '1' <= text[14] <= '5' && text[19] in "89abAB"
  }

  /** The pieces between separators. */
  function Split(text: string): (parts: seq<string>)
    ensures |parts| >= 1
  {
    if text == "" then [""]
    else
      var rest := Split(text[1..]);
      if text[0] == ':' then [""] + rest else [[text[0]] + rest[0]] + rest[1..]
  }

  /** Two parts name an application and an operation, three put a service, maybe empty, between them. */
  function ParseScope(scope: string, key: string): Result<Key> {
    var parts := Split(scope);
    if |parts| == 2 then
      if !SafeIdentifier(parts[0], 96) then Err("invalid-caller-app")
      else if !SafeIdentifier(parts[1], 96) then Err("invalid-operation-scope")
      else Ok(Key(parts[0], "", parts[1], key))
    else if |parts| == 3 then
      if !SafeIdentifier(parts[0], 96) then Err("invalid-caller-app")
      else if parts[1] != "" && !SafeIdentifier(parts[1], 96) then Err("invalid-caller-service")
      else if !SafeIdentifier(parts[2], 96) then Err("invalid-operation-scope")
      else Ok(Key(parts[0], parts[1], parts[2], key))
    else Err("invalid-duplicate-protection-scope")
  }

  function KeyOf<W, V>(call: Call<W, V>): Result<Key> {
    match ParseScope(call.scope, call.key)
    case Err(code) => Err(code)
    case Ok(k) =>
      if !SafeIdentifier(call.key, 128) then Err("invalid-duplicate-protection-key")
      else if !Sha256Text(call.fingerprint) then Err("invalid-request-fingerprint")
      else Ok(k)
  }

  predicate ValidReference(r: Reference) {
    SafeIdentifier(r.kind, 64) && Uuid(r.id) && (r.objectId.Some? ==> Uuid(r.objectId.value))
  }

  // ---------------------------------------------------------------- one execution

  /** The body of the transaction; on failure it leaves behind what it had done so far. */
  function Body<W, V>(db: Db<W>, k: Key, call: Call<W, V>, now: int, ttl: nat, codec: Codec<W, V>): Outcome<W, V> {
    if k !in db.records then Run(db, k, call, now + ttl, codec)
    else
      var record := db.records[k];
      if record.fingerprint != call.fingerprint then Outcome(db, Err("idempotency-key-reused"))
      else if record.state == Done then
        if record.reference.None? then Outcome(db, Err("idempotency-result-missing"))
        else
          match codec.decode(record.reference.value, db.world)
          case Err(code) => Outcome(db, Err(code))
          case Ok(value) => Outcome(db, Ok(Reply(true, value)))
      else if record.expiresAt > now then Outcome(db, Err("idempotency-request-in-progress"))
      else Run(db, k, call, now + ttl, codec)
  }

  /** Marks the record in progress, runs the operation and records its result. */
  function Run<W, V>(db: Db<W>, k: Key, call: Call<W, V>, expiresAt: int, codec: Codec<W, V>): Outcome<W, V> {
    var marked := db.records[k := Record(call.fingerprint, InProgress, None, expiresAt)];
    match call.operation(db.world)
    case Threw(world, code) => Outcome(Db(marked, world), Err(code))
    case Returned(world, value) =>
      match codec.encode(value, world)
      case Err(code) => Outcome(Db(marked, world), Err(code))
      case Ok(reference) =>
        if !ValidReference(reference) then Outcome(Db(marked, world), Err("invalid-duplicate-result"))
        else Outcome(Db(marked[k := Record(call.fingerprint, Done, Some(reference), expiresAt)], world), Ok(Reply(false, value)))
  }

  /** Inside another transaction there is no rollback of its own. */
  function Inside<W, V>(db: Db<W>, call: Call<W, V>, now: int, ttl: nat, codec: Codec<W, V>): Outcome<W, V> {
    match KeyOf(call)
    case Err(code) => Outcome(db, Err(code))
    case Ok(k) => Body(db, k, call, now, ttl, codec)
  }

  /** A call that opens its own transaction: all or nothing. */
  function Transact<W, V>(db: Db<W>, call: Call<W, V>, now: int, ttl: nat, codec: Codec<W, V>): Outcome<W, V> {
    var o := Inside(db, call, now, ttl, codec);
    if o.reply.Ok? then o else Outcome(db, o.reply)
  }

  datatype Timed<!W, V> = Timed(call: Call<W, V>, now: int)

  /** Calls that join an open transaction one after another; their failures are swallowed by whoever made them. */
  ghost function Joined<W, V>(db: Db<W>, calls: seq<Timed<W, V>>, ttl: nat, codec: Codec<W, V>): Db<W>
    decreases |calls|
  {
    if calls == [] then db else Joined(Inside(db, calls[0].call, calls[0].now, ttl, codec).db, calls[1..], ttl, codec)
  }

  // ---------------------------------------------------------------- the store

  /** The committed database, and the open transaction if there is one. */
  class DuplicateStore<W, V> {
    var committed: Db<W>
    var working: Option<Db<W>>
    const codec: Codec<W, V>
    const ttl: nat

    constructor (db: Db<W>, codec: Codec<W, V>, ttl: nat)
      ensures committed == db && working == None && this.codec == codec && this.ttl == ttl
    {
      committed, working := db, None;
      this.codec, this.ttl := codec, ttl;
    }

    /** Joins the open transaction, or opens one and commits or rolls back at the end. */
    method Execute(call: Call<W, V>, now: int) returns (reply: Result<Reply<V>>)
      modifies this
      ensures old(working).None? ==>
        var o := Transact(old(committed), call, now, ttl, codec);
        reply == o.reply && committed == o.db && working.None?
      ensures old(working).Some? ==>
        var o := Inside(old(working).value, call, now, ttl, codec);
        reply == o.reply && working == Some(o.db) && committed == old(committed)
    {
      var k := KeyOf(call);
      if k.Err? {
        return Err(k.code);
      }
      if working.Some? {
        reply := RunInTransaction(call, k.value, now);
      } else {
        working := Some(committed);
        reply := RunInTransaction(call, k.value, now);
        if reply.Ok? {
          committed := working.value;
        }
        working := None;
      }
    }

    /**
     * An operation of its own transaction that makes calls, swallows their failures, and in the end returns or throws: what it
     * has done is committed or rolled back.
     */
    method Enclose(calls: seq<Timed<W, V>>, commits: bool)
      requires working.None?
      modifies this
      ensures working.None?
      ensures committed == if commits then Joined(old(committed), calls, ttl, codec) else old(committed)
    {
      working := Some(committed);
      var i := 0;
      while i < |calls|
        invariant 0 <= i <= |calls| && working.Some? && committed == old(committed)
        invariant Joined(working.value, calls[i..], ttl, codec) == Joined(old(committed), calls, ttl, codec)
      {
        assert calls[i..][1..] == calls[i + 1..];
        var swallowed := Execute(calls[i].call, calls[i].now);
        i := i + 1;
      }
      if commits {
        committed := working.value;
      }
      working := None;
    }

    method RunInTransaction(call: Call<W, V>, k: Key, now: int) returns (reply: Result<Reply<V>>)
      requires working.Some?
      modifies this`working
      ensures var o := Body(old(working).value, k, call, now, ttl, codec);
        reply == o.reply && working == Some(o.db)
    {
      var db := working.value;
      var inserted := k !in db.records;
      if inserted {
        db := db.(records := db.records[k := Record(call.fingerprint, InProgress, None, now + ttl)]);
      }
      var row := db.records[k];
      if row.fingerprint != call.fingerprint {
        return Err("idempotency-key-reused");
      }
      if !inserted && row.state == Done {
        if row.reference.None? {
          return Err("idempotency-result-missing");
        }
        var decoded := codec.decode(row.reference.value, db.world);
        match decoded {
          case Err(code) => return Err(code);
          case Ok(value) => return Ok(Reply(true, value));
        }
      }
      if !inserted && row.state == InProgress && row.expiresAt > now {
        return Err("idempotency-request-in-progress");
      }
      if !inserted {
        db := db.(records := db.records[k := row.(state := InProgress, reference := None, expiresAt := now + ttl)]);
      }
      var ran := call.operation(db.world);
      working := Some(db.(world := ran.world));
      if ran.Threw? {
        return Err(ran.code);
      }
      var encoded := codec.encode(ran.value, ran.world);
      if encoded.Err? {
        return Err(encoded.code);
      }
      if !ValidReference(encoded.value) {
        return Err("invalid-duplicate-result");
      }
      working := Some(Db(db.records[k := db.records[k].(state := Done, reference := Some(encoded.value))], ran.world));
      return Ok(Reply(false, ran.value));
    }
  }

  // ---------------------------------------------------------------- over any sequence of calls

  ghost function RunAll<W, V>(db: Db<W>, calls: seq<Timed<W, V>>, ttl: nat, codec: Codec<W, V>): Db<W>
    decreases |calls|
  {
    if calls == [] then db else RunAll(Transact(db, calls[0].call, calls[0].now, ttl, codec).db, calls[1..], ttl, codec)
  }

  /** No record is left in progress, and each one that is done has a result. */
  predicate Settled<W>(db: Db<W>) {
    forall k :: k in db.records ==> db.records[k].state == Done && db.records[k].reference.Some?
  }

  /** The call was accepted and its operation's effects were committed. */
  predicate Effective<W, V>(db: Db<W>, t: Timed<W, V>, ttl: nat, codec: Codec<W, V>) {
    var reply := Transact(db, t.call, t.now, ttl, codec).reply;
    reply.Ok? && !reply.value.replayed
  }

  /** One call: an effective one adds its own finished record and its effects, any other changes nothing at all. */
  lemma CallCommits<W, V>(db: Db<W>, t: Timed<W, V>, ttl: nat, codec: Codec<W, V>)
    requires Settled(db)
    ensures var after := Transact(db, t.call, t.now, ttl, codec).db;
      if Effective(db, t, ttl, codec) then
        && KeyOf(t.call).Ok? && KeyOf(t.call).value !in db.records && Settled(after)
        && after.records.Keys == db.records.Keys + {KeyOf(t.call).value}
        && after.records[KeyOf(t.call).value].fingerprint == t.call.fingerprint
        && (forall k :: k in db.records ==> after.records[k] == db.records[k])
        && t.call.operation(db.world).Returned? && after.world == t.call.operation(db.world).world
      else after == db
  {
  }

  ghost function Effects<W, V>(db: Db<W>, calls: seq<Timed<W, V>>, k: Key, ttl: nat, codec: Codec<W, V>): nat
    decreases |calls|
  {
    if calls == [] then 0
    else
      var after := Transact(db, calls[0].call, calls[0].now, ttl, codec).db;
      (if Effective(db, calls[0], ttl, codec) && KeyOf(calls[0].call) == Ok(k) then 1 else 0)
      + Effects(after, calls[1..], k, ttl, codec)
  }

  /** Per caller, operation and key, at most one call ever takes effect: exactly one when a record appears. */
  lemma {:induction false} AtMostOnce<W, V>(db: Db<W>, calls: seq<Timed<W, V>>, k: Key, ttl: nat, codec: Codec<W, V>)
    requires Settled(db)
    ensures var end := RunAll(db, calls, ttl, codec);
      && Settled(end)
      && Effects(db, calls, k, ttl, codec) == (if k !in db.records && k in end.records then 1 else 0)
      && (k in db.records ==> k in end.records && end.records[k] == db.records[k])
    decreases |calls|
  {
    hide Transact, Effective;
    if calls != [] {
      var after := Transact(db, calls[0].call, calls[0].now, ttl, codec).db;
      CallCommits(db, calls[0], ttl, codec);
      AtMostOnce(after, calls[1..], k, ttl, codec);
    }
  }

  /** Once a key has its record, every later call under it replays the stored result or is refused, and changes nothing. */
  lemma LaterCallsReplay<W, V>(db: Db<W>, calls: seq<Timed<W, V>>, t: Timed<W, V>, k: Key, ttl: nat, codec: Codec<W, V>)
    requires Settled(db) && k in db.records && KeyOf(t.call) == Ok(k)
    ensures var end := RunAll(db, calls, ttl, codec);
      var o := Transact(end, t.call, t.now, ttl, codec);
      && o.db == end
      && o.reply == if t.call.fingerprint != db.records[k].fingerprint then Err("idempotency-key-reused")
           else match codec.decode(db.records[k].reference.value, end.world)
                case Err(code) => Err(code)
                case Ok(value) => Ok(Reply(true, value))
  {
    AtMostOnce(db, calls, k, ttl, codec);
  }

  /** The first call under a key runs its operation, and succeeds exactly when the operation returns a valid result. */
  lemma FirstCallRuns<W, V>(db: Db<W>, t: Timed<W, V>, k: Key, ttl: nat, codec: Codec<W, V>)
    requires KeyOf(t.call) == Ok(k) && k !in db.records
    ensures var o, ran := Transact(db, t.call, t.now, ttl, codec), t.call.operation(db.world);
      match ran
      case Threw(_, code) => o == Outcome(db, Err(code))
      case Returned(world, value) =>
        match codec.encode(value, world)
        case Err(code) => o == Outcome(db, Err(code))
        case Ok(reference) =>
          if !ValidReference(reference) then o == Outcome(db, Err("invalid-duplicate-result"))
          else
            && o.reply == Ok(Reply(false, value))
            && o.db == Db(db.records[k := Record(t.call.fingerprint, Done, Some(reference), t.now + ttl)], world)
  {
    hide ValidReference, KeyOf;
    var record := Record(t.call.fingerprint, InProgress, None, t.now + ttl);
    var ran := t.call.operation(db.world);
    if ran.Returned? {
      var encoded := codec.encode(ran.value, ran.world);
      if encoded.Ok? {
        var done := Record(t.call.fingerprint, Done, Some(encoded.value), t.now + ttl);
        assert db.records[k := record][k := done] == db.records[k := done];
      }
    }
  }

  // ---------------------------------------------------------------- which scopes name which caller

  function Joining(parts: seq<string>): string
    requires parts != []
  {
    if |parts| == 1 then parts[0] else parts[0] + ":" + Joining(parts[1..])
  }

  predicate NoColons(parts: seq<string>) {
    forall part :: part in parts ==> ':' !in part
  }

  /** Splitting a text gives colon-free parts that make up the text again. */
  lemma {:induction false} SplitJoins(text: string)
    ensures Joining(Split(text)) == text && NoColons(Split(text))
  {
    if text != "" {
      var rest := Split(text[1..]);
      SplitJoins(text[1..]);
      if text[0] == ':' {
        assert ([""] + rest)[1..] == rest;
        assert "" + ":" + Joining(rest) == text;
      } else {
        var parts := [[text[0]] + rest[0]] + rest[1..];
        assert parts[1..] == rest[1..] && rest[0] in rest;
        assert |rest| > 1 ==> [text[0]] + (rest[0] + ":" + Joining(rest[1..])) == [text[0]] + rest[0] + ":" + Joining(rest[1..]);
      }
    }
  }

  lemma {:induction false} SplitPart(part: string, rest: string)
    requires ':' !in part
    ensures Split(part) == [part] && Split(part + ":" + rest) == [part] + Split(rest)
  {
    if part == "" {
      assert "" + ":" + rest == ":" + rest && (":" + rest)[1..] == rest;
    } else {
      SplitPart(part[1..], rest);
      assert (part + ":" + rest)[1..] == part[1..] + ":" + rest;
      assert [part[0]] + part[1..] == part;
    }
  }

  /** A scope written for a caller, with or without a service. */
  predicate NamesCaller(scope: string, k: Key) {
    scope == k.app + ":" + k.service + ":" + k.operation || (k.service == "" && scope == k.app + ":" + k.operation)
  }

  predicate CallerIsSafe(k: Key) {
    SafeIdentifier(k.app, 96) && (k.service == "" || SafeIdentifier(k.service, 96)) && SafeIdentifier(k.operation, 96)
  }

  lemma AcceptedScopeNames(scope: string, key: string, k: Key)
    requires ParseScope(scope, key) == Ok(k)
    ensures k.key == key && NamesCaller(scope, k) && CallerIsSafe(k) && NoColons([k.app, k.service, k.operation])
  {
    hide SafeIdentifier, Split;
    var parts := Split(scope);
    SplitJoins(scope);
    if |parts| == 2 {
      assert Joining(parts[1..]) == parts[1];
      assert parts[0] in parts && parts[1] in parts;
    } else {
      assert parts[1..][1..] == [parts[2]] && Joining([parts[2]]) == parts[2];
      assert parts[0] in parts && parts[1] in parts && parts[2] in parts;
      assert parts[0] + ":" + (parts[1] + ":" + parts[2]) == parts[0] + ":" + parts[1] + ":" + parts[2];
    }
  }

  lemma WrittenScopeSplits(app: string, service: string, operation: string)
    requires ':' !in app && ':' !in service && ':' !in operation
    ensures Split(app + ":" + operation) == [app, operation]
    ensures Split(app + ":" + service + ":" + operation) == [app, service, operation]
  {
    hide Split;
    SplitPart(operation, "");
    SplitPart(service, operation);
    SplitPart(app, operation);
    SplitPart(app, service + ":" + operation);
    assert app + ":" + (service + ":" + operation) == app + ":" + service + ":" + operation;
    assert [app] + ([service] + [operation]) == [app, service, operation];
  }

  /** A scope is accepted exactly when it names an application, maybe a service, and an operation, none with a colon in it. */
  lemma ScopeNamesItsCaller(scope: string, key: string, k: Key)
    ensures ParseScope(scope, key) == Ok(k) <==>
      k.key == key && NamesCaller(scope, k) && CallerIsSafe(k) && NoColons([k.app, k.service, k.operation])
  {
    hide SafeIdentifier, Split;
    if ParseScope(scope, key) == Ok(k) {
      AcceptedScopeNames(scope, key, k);
    }
    if NamesCaller(scope, k) && NoColons([k.app, k.service, k.operation]) {
      var names := [k.app, k.service, k.operation];
      assert names[0] in names && names[1] in names && names[2] in names;
      WrittenScopeSplits(k.app, k.service, k.operation);
    }
  }
}
