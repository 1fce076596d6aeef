/**
 Direct dispatch of compiled graphs.

 The dispatcher keeps a table from call keys to compiled code and bypasses Dynamo's guarded lookup
 on a hit. Dynamo is modelled by the contract the dispatcher relies on: a most-recently-used list
 of code objects, each with a guard, and a compiler for calls no guard accepts.
 */
module Dispatch {
  import opened Options

  /**
   What surrounds the dispatcher. C is the type of calls, K of keys, D of code objects.
   `key` is None for a call the dispatcher refuses to key; `ok(d, c)` says code d is right for c;
   `fullgraph` turns a recompile-limit bail-out into an exception; under `deaths` an entry may be invalidated
   after Dynamo has returned and before the dispatcher looks at its list.
   */
  datatype World<!C, !K, !D> = World(
    key: C -> Option<K>,
    compile: C -> D,
    accepts: (D, C) -> bool,
    ok: (D, C) -> bool,
    fullgraph: bool,
    deaths: bool)

  /******* State and steps *******/

  datatype State<K, D> = State(graphs: map<K, D>, entries: seq<D>)

  /**
   `dying` are the entries invalidated before the call is registered.
   BailOut is a call for which Dynamo, finding no entry, reaches its recompile limit and runs eagerly.
   */
  datatype Event<C, D> = Invoke(call: C, dying: set<D>) | BailOut(call: C) | Invalidate(dead: set<D>)

  /** The position of the first entry whose guard accepts the call, or |entries|. */
  function Find<C, K, D>(w: World<C, K, D>, entries: seq<D>, c: C): (i: nat)
    ensures i <= |entries|
    ensures i < |entries| ==> w.accepts(entries[i], c)
    ensures forall j | 0 <= j < i :: !w.accepts(entries[j], c)
  {
    if entries == [] then 0
    else if w.accepts(entries[0], c) then 0
    else 1 + Find(w, entries[1..], c)
  }

  /** Dynamo's cache after a call: the entry used, found or compiled, is at the head. */
  function Looked<C, K, D>(w: World<C, K, D>, entries: seq<D>, c: C): (after: seq<D>)
    ensures after != []
  {
    var i := Find(w, entries, c);
    if i < |entries| then [entries[i]] + entries[..i] + entries[i + 1..]
    else [w.compile(c)] + entries
  }

  function Without<D(==)>(entries: seq<D>, dead: set<D>): seq<D>
  {
    if entries == [] then []
    else if entries[0] in dead then Without(entries[1..], dead)
    else [entries[0]] + Without(entries[1..], dead)
  }

  /** The state after an event. A refused call changes nothing. */
  function Step<C, K, D>(w: World<C, K, D>, s: State<K, D>, e: Event<C, D>): State<K, D>
  {
    match e
    case Invalidate(dead) => s.(entries := Without(s.entries, dead))
    case Invoke(c, dying) =>
      if w.key(c).None? || w.key(c).value in s.graphs then s
      else
        var entries := Left(w, Looked(w, s.entries, c), dying);
        State(if entries == [] then s.graphs else s.graphs[w.key(c).value := entries[0]], entries)
    case BailOut(c) =>
      if !w.fullgraph && CanBailOut(w, s, c) && s.entries != []
        then s.(graphs := s.graphs[w.key(c).value := s.entries[0]]) else s
  }

  /** What _register finds. */
  function Left<C, K, D>(w: World<C, K, D>, entries: seq<D>, dying: set<D>): seq<D>
  {
    if w.deaths then Without(entries, dying) else entries
  }

  /** The call reaches Dynamo, and no guard accepts it. */
  predicate CanBailOut<C, K, D>(w: World<C, K, D>, s: State<K, D>, c: C)
  {
    w.key(c).Some? && w.key(c).value !in s.graphs && Find(w, s.entries, c) == |s.entries|
  }

  /** The code a call runs: the table's on a hit, Dynamo's otherwise; None when it is refused. */
  function Ran<C, K, D>(w: World<C, K, D>, s: State<K, D>, c: C): Option<D>
  {
    if w.key(c).None? then None
    else if w.key(c).value in s.graphs then Some(s.graphs[w.key(c).value])
    else Some(Looked(w, s.entries, c)[0])
  }

  function RunAll<C, K, D>(w: World<C, K, D>, s: State<K, D>, events: seq<Event<C, D>>): State<K, D>
    decreases |events|
  {
    if events == [] then s else RunAll(w, Step(w, s, events[0]), events[1..])
  }

  /** Position i holds the first entry that accepts the call; there is none when i is |entries|. */
  ghost predicate FirstAccepting<C, K, D>(w: World<C, K, D>, entries: seq<D>, c: C, i: nat)
  {
    && i <= |entries| && (i < |entries| ==> w.accepts(entries[i], c))
    && forall j | 0 <= j < i :: !w.accepts(entries[j], c)
  }

  /** The list with entry i in front, the others in their order; past the end, new code in front. */
  function Fronted<C, K, D>(w: World<C, K, D>, entries: seq<D>, c: C, i: nat): (after: seq<D>)
    requires i <= |entries|
    ensures after != []
  {
    if i == |entries| then [w.compile(c)] + entries else [entries[i]] + entries[..i] + entries[i + 1..]
  }

  /** `after` is the list as Dynamo leaves it, the entry it used in front. */
  ghost predicate MovedToFront<C, K, D>(w: World<C, K, D>, entries: seq<D>, c: C, after: seq<D>)
  {
    exists i: nat | FirstAccepting(w, entries, c, i) :: after == Fronted(w, entries, c, i)
  }

  lemma LookedMovesToFront<C, K, D>(w: World<C, K, D>, entries: seq<D>, c: C)
    ensures MovedToFront(w, entries, c, Looked(w, entries, c))
  {
    assert FirstAccepting(w, entries, c, Find(w, entries, c));
  }

  /** What a call does to the table: a hit and a refusal nothing, a miss that leaves an entry records the head. */
  ghost predicate Dispatched<C, K, D>(w: World<C, K, D>, s: State<K, D>, c: C, dying: set<D>, s': State<K, D>,
                                      ran: Option<D>)
  {
    match w.key(c)
    case None => s' == s && ran.None?
    case Some(k) =>
      if k in s.graphs then s' == s && ran == Some(s.graphs[k])
      else
        && (exists i: nat | FirstAccepting(w, s.entries, c, i) ::
              var looked := Fronted(w, s.entries, c, i);
              ran == Some(looked[0]) && s'.entries == if w.deaths then Without(looked, dying) else looked)
        && s'.graphs == if s'.entries == [] then s.graphs else s.graphs[k := s'.entries[0]]
  }

  lemma StepDispatches<C, K, D>(w: World<C, K, D>, s: State<K, D>, c: C, dying: set<D>)
    ensures Dispatched(w, s, c, dying, Step(w, s, Invoke(c, dying)), Ran(w, s, c))
  {
    assert FirstAccepting(w, s.entries, c, Find(w, s.entries, c));
  }

  /** Exactly the dead entries go. */
  lemma {:induction false} WithoutCounts<D>(entries: seq<D>, dead: set<D>, d: D)
    ensures multiset(Without(entries, dead))[d] == if d in dead then 0 else multiset(entries)[d]
  {
    if entries != [] {
      WithoutCounts(entries[1..], dead, d);
      assert entries == [entries[0]] + entries[1..];
    }
  }

  /******* The classes *******/

  class Dynamo<C, K, D(==)> {
    const world: World<C, K, D>
    var entries: seq<D>

    constructor (world: World<C, K, D>)
      ensures this.world == world && entries == []
    {
      this.world := world;
      entries := [];
    }

    /** Runs the guarded lookup, compiling when no guard accepts. */
    method Call(c: C) returns (d: D)
      modifies this
      ensures entries == Looked(world, old(entries), c) && d == entries[0]
      ensures MovedToFront(world, old(entries), c, entries)
    {
      LookedMovesToFront(world, entries, c);
      var i := 0;
      while i < |entries| && !world.accepts(entries[i], c)
        invariant 0 <= i <= |entries|
        invariant Find(world, entries, c) >= i
      {
        assert forall j | 0 <= j <= i :: !world.accepts(entries[j], c);
        i := i + 1;
      }
      if i < |entries| {
        entries := [entries[i]] + entries[..i] + entries[i + 1..];
      } else {
        entries := [world.compile(c)] + entries;
      }
      d := entries[0];
    }

    method Invalidate(dead: set<D>)
      modifies this
      ensures entries == Without(old(entries), dead)
    {
      var kept: seq<D> := [];
      ghost var all := entries;
      for i := 0 to |entries|
        invariant entries == all && kept + Without(all[i..], dead) == Without(all, dead)
      {
        assert all[i..][1..] == all[i + 1..];
        if entries[i] !in dead { kept := kept + [entries[i]]; }
      }
      entries := kept;
    }
  }

  class Dispatcher<C, K(==), D(==)> {
    const dynamo: Dynamo<C, K, D>
    var graphs: map<K, D>

    ghost function Current(): State<K, D>
      reads this, dynamo
    {
      State(graphs, dynamo.entries)
    }

    constructor (dynamo: Dynamo<C, K, D>)
      ensures this.dynamo == dynamo && graphs == map[]
    {
      this.dynamo := dynamo;
      graphs := map[];
    }

    /** __call__: key the call, run the recorded clone or go through Dynamo and record. */
    method Invoke(c: C, dying: set<D>) returns (ran: Option<D>)
      modifies this, dynamo
      ensures ran == Ran(dynamo.world, old(Current()), c)
      ensures Current() == Step(dynamo.world, old(Current()), Event.Invoke(c, dying))
      ensures Dispatched(dynamo.world, old(Current()), c, dying, Current(), ran)
    {
      StepDispatches(dynamo.world, Current(), c, dying);
      var key := dynamo.world.key(c);
      if key.None? { return None; }
      if key.value in graphs { return Some(graphs[key.value]); }
      var d := dynamo.Call(c);
      if dynamo.world.deaths {
        dynamo.Invalidate(dying);
      }
      Register(key.value);
      ran := Some(d);
    }

    /** __call__ again, when Dynamo bails out: the call has run eagerly, and the head is recorded all the same. */
    method InvokeBailingOut(c: C)
      requires CanBailOut(dynamo.world, Current(), c)
      modifies this
      ensures Current() == Step(dynamo.world, old(Current()), BailOut(c))
    {
      if !dynamo.world.fullgraph {
        Register(dynamo.world.key(c).value);
      }
    }

    /** _register: bind the head of Dynamo's list, or nothing when the list is empty. */
    method Register(key: K)
      modifies this
      ensures graphs == if dynamo.entries == [] then old(graphs) else old(graphs)[key := dynamo.entries[0]]
    {
      if dynamo.entries == [] { return; }
      graphs := graphs[key := dynamo.entries[0]];
    }
  }

  /******* When every run is correct *******/

  /** A compiled code object accepts the call it was compiled for. */
  ghost predicate GuardsHold<C(!new), K, D>(w: World<C, K, D>)
  {
    forall c :: w.accepts(w.compile(c), c)
  }

  ghost predicate CorrectRun<C, K, D>(w: World<C, K, D>, s: State<K, D>, events: seq<Event<C, D>>)
    decreases |events|
  {
    events != [] ==>
      (events[0].Invoke? && Ran(w, s, events[0].call).Some? ==>
        w.ok(Ran(w, s, events[0].call).value, events[0].call)) &&
      CorrectRun(w, Step(w, s, events[0]), events[1..])
  }

  ghost predicate AlwaysCorrect<C(!new), K(!new), D(!new)>(w: World<C, K, D>)
  {
    forall events: seq<Event<C, D>> :: CorrectRun(w, State(map[], []), events)
  }

  /** Code compiled for `source` and accepted for `user` is right for every call sharing `user`'s key. */
  ghost predicate KeyCarries<C, K, D>(w: World<C, K, D>, source: C, user: C, other: C)
  {
    (w.key(source).Some? && w.key(user).Some? && w.key(user) == w.key(other) && w.accepts(w.compile(source), user))
    ==> w.ok(w.compile(source), other)
  }

  ghost predicate KeySuffices<C(!new), K, D>(w: World<C, K, D>)
  {
    forall source, user, other :: KeyCarries(w, source, user, other)
  }

  ghost predicate Made<C, K, D>(w: World<C, K, D>, d: D, source: C)
  {
    w.key(source).Some? && d == w.compile(source)
  }

  ghost predicate Bound<C, K, D>(w: World<C, K, D>, k: K, d: D, user: C)
  {
    w.key(user) == Some(k) && w.accepts(d, user)
  }

  ghost predicate Sourced<C(!new), K, D>(w: World<C, K, D>, d: D)
  {
    exists source :: Made(w, d, source)
  }

  ghost predicate Selected<C(!new), K, D>(w: World<C, K, D>, k: K, d: D)
  {
    exists user :: Bound(w, k, d, user)
  }

  /** Any code made for a keyed call is right for every keyed call. */
  ghost predicate AnyCodeServes<C(!new), K, D>(w: World<C, K, D>)
  {
    forall source, other :: CodeServes(w, source, other)
  }

  ghost predicate CodeServes<C, K, D>(w: World<C, K, D>, source: C, other: C)
  {
    w.key(source).Some? && w.key(other).Some? ==> w.ok(w.compile(source), other)
  }

  /** What the key must do for every run to be correct. */
  ghost predicate KeyIsEnough<C(!new), K, D>(w: World<C, K, D>)
  {
    if Steady(w) then KeySuffices(w) else AnyCodeServes(w)
  }

  /** The head of Dynamo's list is always the code it just used. */
  predicate Steady<C, K, D>(w: World<C, K, D>) { w.fullgraph && !w.deaths }

  /**
   Every entry was compiled for a keyed call; in a steady world every table entry was selected by Dynamo for its
   key.
   */
  ghost predicate Inv<C(!new), K, D>(w: World<C, K, D>, s: State<K, D>)
  {
    && (forall i | 0 <= i < |s.entries| :: Sourced(w, s.entries[i]))
    && (forall k | k in s.graphs :: Sourced(w, s.graphs[k]) && (Steady(w) ==> Selected(w, k, s.graphs[k])))
  }

  lemma {:induction false} WithoutKeeps<D>(entries: seq<D>, dead: set<D>)
    ensures forall i | 0 <= i < |Without(entries, dead)| :: Without(entries, dead)[i] in entries
  {
    if entries != [] { WithoutKeeps(entries[1..], dead); }
  }

  lemma LookedInv<C(!new), K, D>(w: World<C, K, D>, s: State<K, D>, c: C)
    requires GuardsHold(w) && Inv(w, s) && w.key(c).Some?
    ensures var after := Looked(w, s.entries, c);
            && w.accepts(after[0], c)
            && forall i | 0 <= i < |after| :: Sourced(w, after[i])
  {
    var i := Find(w, s.entries, c);
    var after := Looked(w, s.entries, c);
    if i < |s.entries| {
      forall j | 0 <= j < |after| ensures Sourced(w, after[j]) {
        var p := if j == 0 then i else if j <= i then j - 1 else j;
        assert after[j] == s.entries[p];
      }
    } else {
      assert w.accepts(w.compile(c), c);
      forall j | 0 <= j < |after| ensures Sourced(w, after[j]) {
        if j == 0 { assert Made(w, after[0], c); } else { assert after[j] == s.entries[j - 1]; }
      }
    }
  }

  lemma StepKeepsInv<C(!new), K, D>(w: World<C, K, D>, s: State<K, D>, e: Event<C, D>)
    requires GuardsHold(w) && Inv(w, s)
    ensures Inv(w, Step(w, s, e))
  {
    match e
    case Invalidate(dead) =>
      WithoutKeeps(s.entries, dead);
      var kept := Without(s.entries, dead);
      forall i | 0 <= i < |kept| ensures Sourced(w, kept[i]) {
        assert kept[i] in s.entries;
        var j :| 0 <= j < |s.entries| && s.entries[j] == kept[i];
      }
    case Invoke(c, dying) =>
      if w.key(c).Some? && w.key(c).value !in s.graphs {
        LookedInv(w, s, c);
        var after := Looked(w, s.entries, c);
        var left := Left(w, after, dying);
        WithoutKeeps(after, dying);
        forall i | 0 <= i < |left| ensures Sourced(w, left[i]) {
          assert left[i] in after;
          var j :| 0 <= j < |after| && after[j] == left[i];
        }
        assert Bound(w, w.key(c).value, after[0], c);
      }
    case BailOut(c) =>
      if s.entries != [] { assert Sourced(w, s.entries[0]); }
  }

  /** Whatever happens, table entries stay bound to code Dynamo selected for their key. */
  lemma {:induction false} RunKeepsInv<C(!new), K, D>(w: World<C, K, D>, s: State<K, D>, events: seq<Event<C, D>>)
    requires GuardsHold(w) && Inv(w, s)
    ensures Inv(w, RunAll(w, s, events))
    decreases |events|
  {
    if events != [] {
      StepKeepsInv(w, s, events[0]);
      RunKeepsInv(w, Step(w, s, events[0]), events[1..]);
    }
  }

  lemma RanIsOk<C(!new), K, D>(w: World<C, K, D>, s: State<K, D>, c: C)
    requires GuardsHold(w) && Inv(w, s) && KeyIsEnough(w) && w.key(c).Some?
    ensures w.ok(Ran(w, s, c).value, c)
  {
    var k := w.key(c).value;
    if k in s.graphs {
      var source :| Made(w, s.graphs[k], source);
      assert Made(w, s.graphs[k], source);
      if Steady(w) {
        var user :| Bound(w, k, s.graphs[k], user);
        assert Bound(w, k, s.graphs[k], user);
        assert KeyCarries(w, source, user, c);
      } else {
        assert CodeServes(w, source, c);
      }
    } else {
      LookedInv(w, s, c);
      var source :| Made(w, Looked(w, s.entries, c)[0], source);
      assert if Steady(w) then KeyCarries(w, source, c, c) else CodeServes(w, source, c);
    }
  }

  lemma {:induction false} RunsAreCorrect<C(!new), K, D>(w: World<C, K, D>, s: State<K, D>, events: seq<Event<C, D>>)
    requires GuardsHold(w) && Inv(w, s) && KeyIsEnough(w)
    ensures CorrectRun(w, s, events)
    decreases |events|
  {
    if events != [] {
      var e := events[0];
      if e.Invoke? && w.key(e.call).Some? { RanIsOk(w, s, e.call); }
      StepKeepsInv(w, s, e);
      RunsAreCorrect(w, Step(w, s, e), events[1..]);
    }
  }

  /** A key that does not suffice is exposed by a run of at most three calls. */
  lemma FailingRun<C(!new), K, D>(w: World<C, K, D>, source: C, user: C, other: C) returns (events: seq<Event<C, D>>)
    requires GuardsHold(w) && !KeyCarries(w, source, user, other)
    ensures |events| <= 3 && !CorrectRun(w, State(map[], []), events)
  {
    var s0: State<K, D> := State(map[], []);
    var d := w.compile(source);
    var s1 := Step(w, s0, Invoke(source, {}));
    assert Find(w, [], source) == 0;
    WithoutNone([d]);
    assert s1 == State(map[w.key(source).value := d], [d]);
    if w.key(source) == w.key(user) {
      events := [Invoke(source, {}), Invoke(other, {})];
      assert Ran(w, s1, other) == Some(d);
      assert events[1..] == [Invoke(other, {})];
      assert !CorrectRun(w, s1, [Invoke(other, {})]);
    } else {
      assert Find(w, [d], user) == 0;
      var s2 := Step(w, s1, Invoke(user, {}));
      assert s2.graphs == s1.graphs[w.key(user).value := d];
      assert Ran(w, s2, other) == Some(d);
      var tail := [Invoke(user, {}), Invoke(other, {})];
      events := [Invoke(source, {}), Invoke(user, {}), Invoke(other, {})];
      assert tail[1..] == [Invoke(other, {})] && events[1..] == tail;
      assert !CorrectRun(w, s2, [Invoke(other, {})]);
      assert !CorrectRun(w, s1, tail);
    }
  }

  /**
   Where the head may be another call's code, code that is wrong for any keyed call is exposed, if need be by a
   bail-out or by the death of the call's own entry.
   */
  lemma FailingHead<C(!new), K, D>(w: World<C, K, D>, source: C, other: C) returns (events: seq<Event<C, D>>)
    requires GuardsHold(w) && !Steady(w) && !CodeServes(w, source, other)
    ensures |events| <= 3 && !CorrectRun(w, State(map[], []), events)
  {
    var d, own := w.compile(source), w.compile(other);
    if w.key(source) == w.key(other) {
      events := FailingRun(w, source, source, other);
    } else if w.accepts(d, other) {
      events := FailingRun(w, source, other, other);
    } else {
      var s0: State<K, D> := State(map[], []);
      var s1 := Step(w, s0, Invoke(source, {}));
      assert Find(w, [], source) == 0;
      WithoutNone([d]);
      assert s1 == State(map[w.key(source).value := d], [d]);
      assert Find(w, [d], other) == 1;
      var wrong: Event<C, D> := if w.fullgraph then Invoke(other, {own}) else BailOut(other);
      var s2 := Step(w, s1, wrong);
      if w.fullgraph {
        assert w.accepts(own, other);
        WithoutFirst(own, d);
      }
      assert s2.graphs == s1.graphs[w.key(other).value := d];
      var tail := [wrong, Invoke(other, {})];
      events := [Invoke(source, {}), wrong, Invoke(other, {})];
      assert tail[1..] == [Invoke(other, {})] && events[1..] == tail;
      assert !CorrectRun(w, s2, [Invoke(other, {})]);
      assert !CorrectRun(w, s1, tail);
    }
  }

  lemma {:induction false} WithoutNone<D>(entries: seq<D>)
    ensures Without(entries, {}) == entries
  {
    if entries != [] { WithoutNone(entries[1..]); }
  }

  lemma WithoutFirst<D>(first: D, second: D)
    requires first != second
    ensures Without([first] + [second], {first}) == [second]
  {
    assert ([first] + [second])[1..] == [second] && [second][1..] == [];
    assert Without([], {first}) == [];
    assert Without([second], {first}) == [second];
  }

  /**
   The exact condition under which no run of any length serves the wrong graph. When the head of Dynamo's list is always
   the code it just used, sharing a key must carry correctness over. Where a bail-out or a death in between can put
   another call's code there, nothing less will do than every graph being right for every call.
   */
  lemma AlwaysCorrectIff<C(!new), K(!new), D(!new)>(w: World<C, K, D>)
    requires GuardsHold(w)
    ensures AlwaysCorrect(w) <==> if w.fullgraph && !w.deaths then KeySuffices(w) else AnyCodeServes(w)
  {
    if KeyIsEnough(w) {
      forall events: seq<Event<C, D>> ensures CorrectRun(w, State(map[], []), events) {
        RunsAreCorrect(w, State(map[], []), events);
      }
    } else if Steady(w) {
      var source, user, other :| !KeyCarries(w, source, user, other);
      var events := FailingRun(w, source, user, other);
    } else {
      var source, other :| !CodeServes(w, source, other);
      var events := FailingHead(w, source, other);
    }
  }

  /** Guards decided by the key, and sound guards, are enough. */
  lemma GuardsFromKeySuffice<C(!new), K(!new), D(!new)>(w: World<C, K, D>)
    requires GuardsHold(w) && w.fullgraph && !w.deaths
    requires forall d, a, b :: w.key(a).Some? && w.key(a) == w.key(b) ==> w.accepts(d, a) == w.accepts(d, b)
    requires forall d, c :: w.accepts(d, c) ==> w.ok(d, c)
    ensures AlwaysCorrect(w)
  {
    forall source, user, other ensures KeyCarries(w, source, user, other) {
      if w.key(user).Some? && w.key(user) == w.key(other) {
        assert w.accepts(w.compile(source), user) == w.accepts(w.compile(source), other);
      }
    }
    AlwaysCorrectIff(w);
  }

  /** Once bound, a key keeps its code through any later events. */
  lemma {:induction false} BindingsLast<C, K, D>(w: World<C, K, D>, s: State<K, D>, events: seq<Event<C, D>>, k: K)
    requires k in s.graphs
    ensures k in RunAll(w, s, events).graphs && RunAll(w, s, events).graphs[k] == s.graphs[k]
    decreases |events|
  {
    if events != [] { BindingsLast(w, Step(w, s, events[0]), events[1..], k); }
  }
}

/** The key itself: what of a call enters it, and that this is exactly what Dynamo's guards compare. */
module DispatchKey {
  import opened Options
  import Dispatch

  /** `data` stands for the contents, which neither the key nor a guard reads. */
  datatype Tensor = Tensor(shape: seq<nat>, dtype: string, device: string, stride: seq<int>, data: int)

  datatype Value =
    | TensorValue(t: Tensor)
    | NoneValue
    | BoolValue(b: bool)
    | IntValue(i: int)
    | FloatValue(r: real)
    | StrValue(s: string)
    | BytesValue(bytes: seq<nat>)
    | DtypeValue(name: string)
    | Tensors(items: seq<(string, Tensor)>)
    | Other(typeName: string)

  datatype PyType = NoneType | Bool | Int | Float | Str | Bytes | Dtype

  /**
   The Python objects a key is built from, as == sees them: True, 1 and 1.0 are one number, and tuples carry
   no tag.
   */
  datatype Py =
    | Nothing
    | Number(r: real)
    | Text(s: string)
    | Octets(bytes: seq<nat>)
    | DtypeObject(name: string)
    | DeviceObject(name: string)
    | TypeObject(ty: PyType)
    | Tuple(items: seq<Py>)

  function Sizes(ns: seq<int>): Py { Tuple(seq(|ns|, i requires 0 <= i < |ns| => Number(ns[i] as real))) }

  /** (value.shape, value.dtype, value.device, value.stride()) */
  function TensorKey(t: Tensor): Py
  {
    Tuple([Sizes(t.shape), DtypeObject(t.dtype), DeviceObject(t.device), Sizes(t.stride)])
  }

  /** tuple((k, _value_key(t)) for k, t in value.items()) */
  function ItemKeys(items: seq<(string, Tensor)>): (keys: seq<Py>)
    ensures |keys| == |items|
    ensures forall k | 0 <= k < |items| :: keys[k] == Tuple([Text(items[k].0), TensorKey(items[k].1)])
  {
    seq(|items|, k requires 0 <= k < |items| => Tuple([Text(items[k].0), TensorKey(items[k].1)]))
  }

  function Scalar(v: Value): Py
  {
    match v
    case BoolValue(b) => Number(if b then 1.0 else 0.0)
    case IntValue(i) => Number(i as real)
    case FloatValue(r) => Number(r)
    case StrValue(s) => Text(s)
    case BytesValue(b) => Octets(b)
    case DtypeValue(n) => DtypeObject(n)
    case _ => Nothing
  }

  function ScalarType(v: Value): PyType
  {
    match v
    case BoolValue(_) => Bool
    case IntValue(_) => Int
    case FloatValue(_) => Float
    case StrValue(_) => Str
    case BytesValue(_) => Bytes
    case DtypeValue(_) => Dtype
    case _ => NoneType
  }

  /** _value_key; None is the TypeError for an argument it cannot key. */
  function ValueKey(v: Value): Option<Py>
  {
    match v
    case TensorValue(t) => Some(TensorKey(t))
    case Tensors(items) => Some(Tuple(ItemKeys(items)))
    case Other(_) => None
    case _ => Some(Tuple([TypeObject(ScalarType(v)), Scalar(v)]))
  }

  /******* What Dynamo's guards compare *******/

  ghost predicate TensorsMatch(a: Tensor, b: Tensor)
  {
    a.shape == b.shape && a.dtype == b.dtype && a.device == b.device && a.stride == b.stride
  }

  ghost predicate Indistinguishable(a: Value, b: Value)
  {
    match a
    case TensorValue(t) => b.TensorValue? && TensorsMatch(t, b.t)
    case Tensors(items) =>
      && b.Tensors? && |items| == |b.items|
      && forall k | 0 <= k < |items| :: items[k].0 == b.items[k].0 && TensorsMatch(items[k].1, b.items[k].1)
    case _ => a == b
  }

  lemma SizesInjective(a: seq<int>, b: seq<int>)
    ensures Sizes(a) == Sizes(b) ==> a == b
  {
    if Sizes(a) == Sizes(b) {
      assert |a| == |Sizes(a).items| == |b|;
      forall i | 0 <= i < |a| ensures a[i] == b[i] { assert Sizes(a).items[i] == Sizes(b).items[i]; }
    }
  }

  lemma TensorKeyExact(a: Tensor, b: Tensor)
    ensures TensorKey(a) == TensorKey(b) <==> TensorsMatch(a, b)
  {
    SizesInjective(a.shape, b.shape);
    SizesInjective(a.stride, b.stride);
    var x, y := TensorKey(a).items, TensorKey(b).items;
    if x == y { assert x[0] == y[0] && x[1] == y[1] && x[2] == y[2] && x[3] == y[3]; }
  }

  lemma ItemKeysExact(a: seq<(string, Tensor)>, b: seq<(string, Tensor)>)
    ensures ItemKeys(a) == ItemKeys(b) <==> Indistinguishable(Tensors(a), Tensors(b))
  {
    hide TensorKey;
    forall k | 0 <= k < |a| && k < |b|
      ensures ItemKeys(a)[k] == ItemKeys(b)[k] <==> a[k].0 == b[k].0 && TensorsMatch(a[k].1, b[k].1)
    {
      TensorKeyExact(a[k].1, b[k].1);
      var x, y := ItemKeys(a)[k].items, ItemKeys(b)[k].items;
      if x == y { assert x[0] == y[0] && x[1] == y[1]; }
    }
    if |a| == |b| && (forall k | 0 <= k < |a| :: ItemKeys(a)[k] == ItemKeys(b)[k]) {
      assert ItemKeys(a) == ItemKeys(b);
    }
  }

  predicate IsScalar(v: Value) { !v.TensorValue? && !v.Tensors? && !v.Other? }

  /**
   The three forms of key are bare tuples, yet none equals one of another form: not a tensor's four members, a scalar's
   pair, and a dictionary's list of pairs, whatever its length.
   */
  lemma FormsNeverCollide(t: Tensor, items: seq<(string, Tensor)>, v: Value)
    requires IsScalar(v)
    ensures TensorKey(t) != Tuple(ItemKeys(items)) && TensorKey(t) != ValueKey(v).value
            && Tuple(ItemKeys(items)) != ValueKey(v).value
  {
    var tensor, dict, scalar := TensorKey(t).items, ItemKeys(items), ValueKey(v).value.items;
    assert tensor[1].DtypeObject? && scalar[0].TypeObject? && |tensor| == 4 && |scalar| == 2;
    if |dict| == 4 { assert dict[1].Tuple?; }
    if |dict| == 2 { assert dict[0].Tuple?; }
  }

  lemma ScalarKeysExact(a: Value, b: Value)
    requires IsScalar(a) && IsScalar(b)
    ensures ValueKey(a) == ValueKey(b) <==> a == b
  {
    var x, y := ValueKey(a).value.items, ValueKey(b).value.items;
    if x == y { assert x[0] == y[0] && x[1] == y[1]; }
  }

  /** Two keyable arguments share a key part exactly when no guard tells them apart. */
  lemma KeyPartExact(a: Value, b: Value)
    requires !a.Other? && !b.Other?
    ensures ValueKey(a) == ValueKey(b) <==> Indistinguishable(a, b)
  {
    hide TensorKey, ItemKeys;
    if a.TensorValue? && b.TensorValue? {
      TensorKeyExact(a.t, b.t);
    } else if a.Tensors? && b.Tensors? {
      ItemKeysExact(a.items, b.items);
    } else if IsScalar(a) && IsScalar(b) {
      ScalarKeysExact(a, b);
    } else {
      var tensor := if a.TensorValue? then a.t else if b.TensorValue? then b.t else Tensor([], "", "", [], 0);
      var items := if a.Tensors? then a.items else if b.Tensors? then b.items else [];
      FormsNeverCollide(tensor, items, if IsScalar(a) then a else if IsScalar(b) then b else NoneValue);
    }
  }

  /******* A whole call *******/

  /** dp_metadata.max_pads_across_dp: absent metadata and an absent pad width are both None. */
  datatype Context = NoContext | Context(isPrefill: Option<bool>, maxPad: Option<nat>)

  datatype Call = Call(args: seq<Value>, kwargs: map<string, Value>, context: Context, kvGroup: bool)

  datatype Key = Key(args: seq<Py>, kwargs: map<string, Py>, isPrefill: Option<bool>, maxPad: Option<nat>,
                     kvGroup: bool)

  predicate Keyable(c: Call)
  {
    (forall i | 0 <= i < |c.args| :: !c.args[i].Other?) && (forall n | n in c.kwargs :: !c.kwargs[n].Other?)
  }

  function Prefill(c: Context): Option<bool> { if c.NoContext? then None else c.isPrefill }

  function Pad(c: Context): Option<nat> { if c.NoContext? then None else c.maxPad }

  function ArgParts(args: seq<Value>): (parts: seq<Py>)
    requires forall i | 0 <= i < |args| :: !args[i].Other?
    ensures |parts| == |args| && forall i | 0 <= i < |args| :: parts[i] == ValueKey(args[i]).value
  {
    if args == [] then [] else [ValueKey(args[0]).value] + ArgParts(args[1..])
  }

  function CallKey(c: Call): Option<Key>
  {
    if !Keyable(c) then None
    else Some(Key(ArgParts(c.args), map n | n in c.kwargs :: ValueKey(c.kwargs[n]).value,
                  Prefill(c.context), Pad(c.context), c.kvGroup))
  }

  /** Everything Dynamo's guards may read of a call. */
  ghost predicate CallsMatch(a: Call, b: Call)
  {
    && |a.args| == |b.args| && (forall i | 0 <= i < |a.args| :: Indistinguishable(a.args[i], b.args[i]))
    && a.kwargs.Keys == b.kwargs.Keys && (forall n | n in a.kwargs :: Indistinguishable(a.kwargs[n], b.kwargs[n]))
    && Prefill(a.context) == Prefill(b.context) && Pad(a.context) == Pad(b.context) && a.kvGroup == b.kvGroup
  }

  lemma KeyableValue(v: Value)
    ensures ValueKey(v).Some? <==> !v.Other?
  {
  }

  /** Two keyable calls share a key exactly when no guard tells them apart. */
  lemma CallKeyExact(a: Call, b: Call)
    requires Keyable(a) && Keyable(b)
    ensures CallKey(a) == CallKey(b) <==> CallsMatch(a, b)
  {
    hide ValueKey, Indistinguishable, Prefill, Pad;
    var ka, kb := CallKey(a).value, CallKey(b).value;
    forall i | 0 <= i < |a.args| && i < |b.args|
      ensures ka.args[i] == kb.args[i] <==> Indistinguishable(a.args[i], b.args[i])
    {
      KeyPartExact(a.args[i], b.args[i]);
      KeyableValue(a.args[i]);
      KeyableValue(b.args[i]);
    }
    forall n | n in a.kwargs && n in b.kwargs
      ensures ka.kwargs[n] == kb.kwargs[n] <==> Indistinguishable(a.kwargs[n], b.kwargs[n])
    {
      KeyPartExact(a.kwargs[n], b.kwargs[n]);
      KeyableValue(a.kwargs[n]);
      KeyableValue(b.kwargs[n]);
    }
    assert ka.kwargs.Keys == a.kwargs.Keys && kb.kwargs.Keys == b.kwargs.Keys;
    if CallsMatch(a, b) {
      assert ka.args == kb.args;
      assert ka.kwargs == kb.kwargs;
    }
  }

  /** With the real key, sound guards that read only what Dynamo compares never misdispatch. */
  lemma DispatchIsCorrect<D(!new)>(w: Dispatch.World<Call, Key, D>)
    requires forall c :: w.key(c) == CallKey(c)
    requires Dispatch.GuardsHold(w) && w.fullgraph && !w.deaths
    requires forall d, a, b :: CallsMatch(a, b) ==> w.accepts(d, a) == w.accepts(d, b)
    requires forall d, c :: w.accepts(d, c) ==> w.ok(d, c)
    ensures Dispatch.AlwaysCorrect(w)
  {
    forall d, a, b | w.key(a).Some? && w.key(a) == w.key(b) ensures w.accepts(d, a) == w.accepts(d, b) {
      CallKeyExact(a, b);
    }
    Dispatch.GuardsFromKeySuffice(w);
  }
}
