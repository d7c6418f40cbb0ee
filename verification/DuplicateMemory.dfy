/** The in-memory idempotency store. */
module DuplicateMemory {
  // Calls interleave: an operation settles some time after it began, and its failure is cleaned up some time after
  // that.

  import opened Common

  datatype Promise<V> = Pending | Fulfilled(value: V) | Rejected(code: string)

  datatype Entry = Entry(fingerprint: string, promise: nat)

  /** Every operation ever begun, under which map key, and the entries. */
  datatype Memory<V> = Memory(entries: map<string, Entry>, promises: seq<Promise<V>>, owners: seq<string>)

  function MapKey(scope: string, key: string): string {
    scope + ":" + key
  }

  /** How a call goes on: refused, waiting for an operation begun before, or beginning its own. */
  datatype Joined = Refused(code: string) | Waits(promise: nat) | Begins(promise: nat)

  datatype Event<V> =
    | Call(scope: string, key: string, fingerprint: string)
    | Settle(promise: nat, outcome: Promise<V>)
    | CleanUp(promise: nat)

  /** Operations settle once, and only a failed one is cleaned up, by the call that began it. */
  predicate Allowed<V(==)>(m: Memory<V>, e: Event<V>) {
    match e
    case Call(_, _, _) => true
    case Settle(p, outcome) => p < |m.promises| && m.promises[p].Pending? && !outcome.Pending?
    case CleanUp(p) => p < |m.promises| && m.promises[p].Rejected?
  }

  function Join<V>(m: Memory<V>, scope: string, key: string, fingerprint: string): Joined {
    var k := MapKey(scope, key);
    if k in m.entries then
      if m.entries[k].fingerprint != fingerprint then Refused("idempotency-key-reused") else Waits(m.entries[k].promise)
    else Begins(|m.promises|)
  }

  function Apply<V>(m: Memory<V>, e: Event<V>): Memory<V>
    requires |m.owners| == |m.promises| && Allowed(m, e)
  {
    match e
    case Call(scope, key, fingerprint) =>
      if Join(m, scope, key, fingerprint).Begins? then
        var k := MapKey(scope, key);
        Memory(m.entries[k := Entry(fingerprint, |m.promises|)], m.promises + [Pending], m.owners + [k])
      else m
    case Settle(p, outcome) => m.(promises := m.promises[p := outcome])
    case CleanUp(p) =>
      var k := m.owners[p];
      if k in m.entries && m.entries[k].promise == p then m.(entries := m.entries - {k}) else m
  }

  // ---------------------------------------------------------------- the store

  class MemoryStore<V(==)> {
    var entries: map<string, Entry>
    var promises: seq<Promise<V>>
    var owners: seq<string>

    ghost function State(): Memory<V>
      reads this
    {
      Memory(entries, promises, owners)
    }

    constructor ()
      ensures State() == Memory(map[], [], [])
    {
      entries, promises, owners := map[], [], [];
    }

    /** The part of a call before it first waits. */
    method Begin(scope: string, key: string, fingerprint: string) returns (joined: Joined)
      requires |owners| == |promises|
      modifies this
      ensures joined == Join(old(State()), scope, key, fingerprint)
      ensures State() == Apply(old(State()), Call(scope, key, fingerprint))
    {
      var k := scope + ":" + key;
      if k in entries {
        var existing := entries[k];
        if existing.fingerprint != fingerprint {
          return Refused("idempotency-key-reused");
        }
        return Waits(existing.promise);
      }
      var p := |promises|;
      promises, owners := promises + [Pending], owners + [k];
      entries := entries[k := Entry(fingerprint, p)];
      return Begins(p);
    }

    /** The part of a call after its own operation failed. */
    method AfterFailure(p: nat)
      requires |owners| == |promises| && p < |promises| && promises[p].Rejected?
      modifies this`entries
      ensures State() == Apply(old(State()), CleanUp(p))
    {
      var k := owners[p];
      if k in entries && entries[k].promise == p {
        entries := entries - {k};
      }
    }
  }

  // ---------------------------------------------------------------- every run

  /** An entry's operation was begun under that key and is its only one that has not failed. */
  ghost predicate Inv<V>(m: Memory<V>) {
    && |m.owners| == |m.promises|
    && (forall k :: k in m.entries ==> m.entries[k].promise < |m.promises| && m.owners[m.entries[k].promise] == k)
    && forall p :: 0 <= p < |m.promises| && !m.promises[p].Rejected? ==>
         m.owners[p] in m.entries && m.entries[m.owners[p]].promise == p
  }

  ghost predicate AllAllowed<V>(m: Memory<V>, events: seq<Event<V>>)
    requires |m.owners| == |m.promises|
    decreases |events|
  {
    events == [] || (Allowed(m, events[0]) && AllAllowed(Apply(m, events[0]), events[1..]))
  }

  ghost function Run<V>(m: Memory<V>, events: seq<Event<V>>): Memory<V>
    requires |m.owners| == |m.promises| && AllAllowed(m, events)
    decreases |events|
  {
    if events == [] then m else Run(Apply(m, events[0]), events[1..])
  }

  /** Finished operations keep their outcome, and their entry with its fingerprint. */
  ghost predicate Remembers<V>(m: Memory<V>, n: Memory<V>) {
    && |m.promises| <= |n.promises| && |m.owners| == |m.promises| && |n.owners| == |n.promises|
    && (forall p :: 0 <= p < |m.promises| ==> n.owners[p] == m.owners[p])
    && forall p :: 0 <= p < |m.promises| && m.promises[p].Fulfilled? ==>
         && n.promises[p] == m.promises[p]
         && m.owners[p] in m.entries && m.owners[p] in n.entries && n.entries[m.owners[p]] == m.entries[m.owners[p]]
  }

  lemma EventKeeps<V>(m: Memory<V>, e: Event<V>)
    requires Inv(m) && Allowed(m, e)
    ensures Inv(Apply(m, e)) && Remembers(m, Apply(m, e))
  {
    var n := Apply(m, e);
    forall p | 0 <= p < |n.promises| && !n.promises[p].Rejected?
      ensures n.owners[p] in n.entries && n.entries[n.owners[p]].promise == p
    {
      if p < |m.promises| {
        assert !m.promises[p].Rejected?;
      }
    }
  }

  lemma RemembersOn<V>(a: Memory<V>, b: Memory<V>, c: Memory<V>)
    requires Remembers(a, b) && Remembers(b, c)
    ensures Remembers(a, c)
  {
    forall p | 0 <= p < |a.promises| && a.promises[p].Fulfilled?
      ensures c.promises[p] == a.promises[p] && a.owners[p] in c.entries && c.entries[a.owners[p]] == a.entries[a.owners[p]]
    {
      assert b.promises[p].Fulfilled? && b.owners[p] == a.owners[p];
    }
  }

  lemma {:induction false} RunKeeps<V>(m: Memory<V>, events: seq<Event<V>>)
    requires Inv(m) && AllAllowed(m, events)
    ensures Inv(Run(m, events)) && Remembers(m, Run(m, events))
    decreases |events|
  {
    if events != [] {
      EventKeeps(m, events[0]);
      RunKeeps(Apply(m, events[0]), events[1..]);
      RemembersOn(m, Apply(m, events[0]), Run(m, events));
    }
  }

  function Empty<V>(): (m: Memory<V>) {
    Memory(map[], [], [])
  }

  /** Under one map key, of all operations ever begun at most one is running or has succeeded. */
  lemma AtMostOneUnfailed<V>(events: seq<Event<V>>, p: nat, q: nat)
    requires AllAllowed(Empty<V>(), events)
    requires p < |Run(Empty<V>(), events).promises| && q < |Run(Empty<V>(), events).promises|
    ensures var m := Run(Empty<V>(), events);
      && |m.owners| == |m.promises|
      && (m.owners[p] == m.owners[q] && !m.promises[p].Rejected? && !m.promises[q].Rejected? ==> p == q)
  {
    RunKeeps(Empty<V>(), events);
  }

  /** After a success, every later call under that key waits on the same result, or is refused for another fingerprint. */
  lemma SuccessIsReplayed<V>(m: Memory<V>, events: seq<Event<V>>, p: nat, scope: string, key: string, fingerprint: string)
    requires Inv(m) && AllAllowed(m, events) && p < |m.promises| && m.promises[p].Fulfilled?
    requires m.owners[p] == MapKey(scope, key)
    ensures var n := Run(m, events);
      && p < |n.promises| && n.promises[p] == m.promises[p]
      && Join(n, scope, key, fingerprint)
         == if fingerprint != m.entries[m.owners[p]].fingerprint then Refused("idempotency-key-reused") else Waits(p)
  {
    RunKeeps(m, events);
  }

  /** The operation last begun under the map key is running or has succeeded. */
  ghost predicate Standing<V>(m: Memory<V>, k: string, p: nat)
    requires |m.owners| == |m.promises|
  {
    p < |m.promises| && m.owners[p] == k && !m.promises[p].Rejected?
  }

  /**
   * A call begins an operation when none was ever begun under its map key. While one stands, the call waits for it if it
   * has the same fingerprint, and is refused otherwise; and a failed one, once cleaned up, makes way for a new one.
   */
  lemma CallFollowsTheStandingOperation<V>(m: Memory<V>, scope: string, key: string, fingerprint: string, p: nat)
    requires Inv(m)
    ensures var k := MapKey(scope, key); var joined := Join(m, scope, key, fingerprint);
      && ((forall q :: 0 <= q < |m.owners| ==> m.owners[q] != k) ==> joined == Begins(|m.promises|))
      && (Standing(m, k, p) ==>
            && k in m.entries
            && joined == if fingerprint == m.entries[k].fingerprint then Waits(p) else Refused("idempotency-key-reused"))
      && (Allowed(m, CleanUp(p)) && m.owners[p] == k && (forall q :: 0 <= q < |m.owners| ==> !Standing(m, k, q)) ==>
            var after := Apply(m, CleanUp(p));
            k in m.entries && m.entries[k].promise == p ==> Join(after, scope, key, fingerprint) == Begins(|m.promises|))
  {
  }

  /** The fingerprint a later call is held to is that of the call which began the operation. */
  lemma BegunUnderItsFingerprint<V>(m: Memory<V>, scope: string, key: string, fingerprint: string)
    requires |m.owners| == |m.promises| && Join(m, scope, key, fingerprint).Begins?
    ensures var n := Apply(m, Call(scope, key, fingerprint)); var k := MapKey(scope, key);
      && Standing(n, k, |m.promises|) && n.promises == m.promises + [Pending]
      && k in n.entries && n.entries[k] == Entry(fingerprint, |m.promises|)
  {
  }

  // ---------------------------------------------------------------- which keys are kept apart

  /** Two requests share a map key exactly when they are the same, or one scope continues into the other's key. */
  lemma MapKeyCollides(s: string, k: string, t: string, l: string)
    ensures MapKey(s, k) == MapKey(t, l) <==>
      || (s == t && k == l)
      || (|s| < |t| && t[..|s|] == s && t[|s|] == ':' && k == t[|s| + 1..] + ":" + l)
      || (|t| < |s| && s[..|t|] == t && s[|t|] == ':' && l == s[|t| + 1..] + ":" + k)
  {
    if |s| == |t| {
      SameLength(s, k, t, l);
    } else if |s| < |t| {
      Continues(s, k, t, l);
    } else {
      Continues(t, l, s, k);
    }
  }

  lemma SameLength(s: string, k: string, t: string, l: string)
    requires |s| == |t|
    ensures MapKey(s, k) == MapKey(t, l) <==> s == t && k == l
  {
    if MapKey(s, k) == MapKey(t, l) {
      assert s == MapKey(s, k)[..|s|] && t == MapKey(t, l)[..|s|];
      assert k == MapKey(s, k)[|s| + 1..] && l == MapKey(t, l)[|s| + 1..];
    }
  }

  lemma Continues(s: string, k: string, t: string, l: string)
    requires |s| < |t|
    ensures MapKey(s, k) == MapKey(t, l) <==> t[..|s|] == s && t[|s|] == ':' && k == t[|s| + 1..] + ":" + l
  {
    var a, b := MapKey(s, k), MapKey(t, l);
    assert b == t[..|s|] + [t[|s|]] + (t[|s| + 1..] + ":" + l);
    assert a == s + [':'] + k;
    if a == b {
      assert s == a[..|s|] && t[..|s|] == b[..|s|];
      assert a[|s|] == ':' && b[|s|] == t[|s|];
      assert k == a[|s| + 1..] && b[|s| + 1..] == t[|s| + 1..] + ":" + l;
    }
  }

  // ---------------------------------------------------------------- real scopes

  /** The scope of a caller: its application, its service, maybe empty, and the operation. */
  function CallerScope(app: string, service: string, operation: string): string {
    app + ":" + service + ":" + operation
  }

  /** With no colon in the application names, requests of different callers, operations or keys never meet. */
  lemma CallersWithoutColonsAreApart(app: string, service: string, operation: string, key: string,
      app': string, service': string, operation': string, key': string)
    requires ':' !in app && ':' !in service && ':' !in operation
    requires ':' !in app' && ':' !in service' && ':' !in operation'
    requires MapKey(CallerScope(app, service, operation), key) == MapKey(CallerScope(app', service', operation'), key')
    ensures app == app' && service == service' && operation == operation' && key == key'
  {
    var rest, rest' := service + ":" + operation + ":" + key, service' + ":" + operation' + ":" + key';
    assert MapKey(CallerScope(app, service, operation), key) == app + ":" + rest;
    assert MapKey(CallerScope(app', service', operation'), key') == app' + ":" + rest';
    FirstColon(app, rest, app', rest');
    assert rest == service + ":" + (operation + ":" + key) && rest' == service' + ":" + (operation' + ":" + key');
    FirstColon(service, operation + ":" + key, service', operation' + ":" + key');
    FirstColon(operation, key, operation', key');
  }

  lemma ColonBehind(a: string, r: string, i: nat)
    ensures ':' !in a && i < |a + ":" + r| && (a + ":" + r)[i] == ':' ==> i >= |a|
  {
  }

  lemma FirstColon(a: string, r: string, b: string, s: string)
    requires ':' !in a && ':' !in b && a + ":" + r == b + ":" + s
    ensures a == b && r == s
  {
    var x, y := a + ":" + r, b + ":" + s;
    assert x[|a|] == ':' && y[|b|] == ':';
    ColonBehind(b, s, |a|);
    ColonBehind(a, r, |b|);
    assert a == x[..|a|] && b == y[..|b|] && r == x[|a| + 1..] && s == y[|b| + 1..];
  }

  /**
   * But an application name may hold colons. One caller's request is then another caller's too: refused because of a
   * fingerprint it never saw, or made to wait for an operation that is not its own.
   */
  lemma StrangersCollide<V>(app: string, service: string, operation: string, key: string, fingerprint: string, other: string)
    ensures var scope, scope' := CallerScope(app, "", operation), CallerScope(CallerScope(app, "", operation), service, operation);
      var long := service + ":" + operation + ":" + key;
      var begun := Apply(Empty<V>(), Call(scope, long, fingerprint));
      && scope != scope'
      && Join(begun, scope', key, other) == if other != fingerprint then Refused("idempotency-key-reused") else Waits(0)
  {
    var scope, scope' := CallerScope(app, "", operation), CallerScope(CallerScope(app, "", operation), service, operation);
    var long := service + ":" + operation + ":" + key;
    assert |scope'| > |scope|;
    assert MapKey(scope, long) == MapKey(scope', key);
  }

  /** The same through the store: what the second caller is told was settled by the first. */
  method StrangerIsRefused<V(==)>(app: string, service: string, operation: string, key: string, fingerprint: string, other: string)
    returns (joined: Joined)
    ensures joined == if other != fingerprint then Refused("idempotency-key-reused") else Waits(0)
  {
    var store := new MemoryStore<V>();
    var scope := CallerScope(app, "", operation);
    var _ := store.Begin(scope, service + ":" + operation + ":" + key, fingerprint);
    StrangersCollide<V>(app, service, operation, key, fingerprint, other);
    hide CallerScope, MapKey;
    joined := store.Begin(CallerScope(scope, service, operation), key, other);
  }
}
