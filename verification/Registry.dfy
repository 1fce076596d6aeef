/**
 The patch registry: descriptors registered once per key, applied in (priority, key) order.

 A target is a dotted path. Binding a path to a replacement also replaces what lies below that path
 by the replacement's own attributes, which is why one target must not be a prefix of another.
 Conditions are taken to answer the same each time they are asked.
 */
module Registry {
  import opened Options
  import opened Ordering

  const MIN_PRIORITY := 0
  const DEFAULT_PRIORITY := 50
  const MAX_PRIORITY := 100

  type Path = seq<string>
  type Value = nat

  /** What each path holds; None where getattr would fail. */
  type Names = Path -> Option<Value>

  datatype Verify = TargetIsReplacement | Custom(passes: bool)

  datatype Descriptor = Descriptor(key: string, target: Path, replacement: Value, active: bool, verify: Verify,
                                   priority: int, immediate: bool)

  datatype Failure = ImmediateWithPriority | BadPriority | DuplicateKey | DuplicateTarget | Unresolvable | VerifyFailed

  function RankOf(d: Descriptor): Rank { Rank(d.priority, d.key) }

  /******* Names *******/

  predicate Resolvable(names: Names, target: Path)
  {
    |target| >= 2 && names(target[..|target| - 1]).Some?
  }

  /** setattr: the target and everything below it now come from the replacement. */
  function Bind(inside: Value -> Names, names: Names, target: Path, v: Value): Names
  {
    q => if q == target then Some(v) else if target < q then inside(v)(q[|target|..]) else names(q)
  }

  predicate Bound(names: Names, d: Descriptor) { names(d.target) == Some(d.replacement) }

  /******* Applying *******/

  datatype World = World(names: Names, applied: set<string>)

  /** One turn of the loop in apply_registered_patches. */
  function ApplyOne(inside: Value -> Names, w: World, d: Descriptor): (World, Option<Failure>)
  {
    if d.key in w.applied || !d.active then (w, None)
    else if !Resolvable(w.names, d.target) then (w, Some(Unresolvable))
    else
      var names := Bind(inside, w.names, d.target, d.replacement);
      if d.verify.Custom? && !d.verify.passes then (w.(names := names), Some(VerifyFailed))
      else (World(names, w.applied + {d.key}), None)
  }

  /** The loop: it stops at the first failure and keeps what was done before. */
  function Apply(inside: Value -> Names, w: World, ds: seq<Descriptor>): (World, Option<Failure>)
    decreases |ds|
  {
    if ds == [] then (w, None)
    else
      var (w', failure) := ApplyOne(inside, w, ds[0]);
      if failure.Some? then (w', failure) else Apply(inside, w', ds[1..])
  }

  ghost predicate DistinctKeys(ds: seq<Descriptor>)
  {
    forall i, j | 0 <= i < j < |ds| :: ds[i].key != ds[j].key
  }

  ghost predicate WellLaidOut(ds: seq<Descriptor>)
  {
    && (forall i | 0 <= i < |ds| && ds[i].active :: MIN_PRIORITY <= ds[i].priority <= MAX_PRIORITY)
    && forall i, j | 0 <= i < j < |ds| && ds[i].active && ds[j].active ::
         ds[i].key != ds[j].key && ds[i].target != ds[j].target
  }

  /******* What a successful apply guarantees *******/

  /** Applying these in order undoes no binding: neither one already made nor one made earlier in the list. */
  ghost predicate Safe(w: World, ds: seq<Descriptor>)
  {
    forall i, j | 0 <= i < |ds| && 0 <= j < |ds| && ds[i].active && ds[j].active && ds[j].key !in w.applied
      && (i < j || (i != j && ds[i].key in w.applied)) ::
      !(ds[j].target <= ds[i].target)
  }

  /** What earlier applies bound is still bound. */
  ghost predicate AppliedBound(w: World, ds: seq<Descriptor>)
  {
    forall i | 0 <= i < |ds| && ds[i].active && ds[i].key in w.applied :: Bound(w.names, ds[i])
  }

  ghost predicate AllBound(w: World, ds: seq<Descriptor>)
  {
    forall i | 0 <= i < |ds| && ds[i].active :: Bound(w.names, ds[i])
  }

  ghost predicate AllApplied(w: World, ds: seq<Descriptor>)
  {
    forall i | 0 <= i < |ds| && ds[i].active :: ds[i].key in w.applied
  }

  lemma {:induction false} StaysBound(inside: Value -> Names, w: World, ds: seq<Descriptor>, d: Descriptor)
    requires Bound(w.names, d) && forall j | 0 <= j < |ds| && ds[j].active && ds[j].key !in w.applied ::
             !(ds[j].target <= d.target)
    ensures Bound(Apply(inside, w, ds).0.names, d)
    decreases |ds|
  {
    if ds != [] {
      StaysBound(inside, ApplyOne(inside, w, ds[0]).0, ds[1..], d);
    }
  }

  predicate HasKey(ds: seq<Descriptor>, key: string) { exists i :: 0 <= i < |ds| && ds[i].key == key }

  lemma {:induction false} AppliedKeys(inside: Value -> Names, w: World, ds: seq<Descriptor>, key: string)
    ensures key in w.applied ==> key in Apply(inside, w, ds).0.applied
    ensures key in Apply(inside, w, ds).0.applied ==> key in w.applied || HasKey(ds, key)
    decreases |ds|
  {
    if ds != [] {
      AppliedKeys(inside, ApplyOne(inside, w, ds[0]).0, ds[1..], key);
      assert HasKey(ds[1..], key) ==> HasKey(ds, key) by {
        if HasKey(ds[1..], key) {
          var i :| 0 <= i < |ds[1..]| && ds[1..][i].key == key;
          assert ds[i + 1].key == key;
        }
      }
      assert HasKey(ds, ds[0].key);
    }
  }

  /** Whether or not every patch succeeds, each one that counts as applied is bound. */
  lemma {:induction false} ApplyBinds(inside: Value -> Names, w: World, ds: seq<Descriptor>)
    requires DistinctKeys(ds) && Safe(w, ds) && AppliedBound(w, ds)
    ensures AppliedBound(Apply(inside, w, ds).0, ds)
    decreases |ds|
  {
    if ds != [] {
      var (w', failure) := ApplyOne(inside, w, ds[0]);
      var rest := ds[1..];
      assert forall j | 0 <= j < |rest| :: rest[j] == ds[j + 1];
      if failure.None? {
        ApplyBinds(inside, w', rest);
        AppliedKeys(inside, w', rest, ds[0].key);
        assert !HasKey(rest, ds[0].key);
        if ds[0].active && ds[0].key in w'.applied {
          forall j | 0 <= j < |rest| && rest[j].active && rest[j].key !in w'.applied
            ensures !(rest[j].target <= ds[0].target)
          {
            assert ds[j + 1] == rest[j];
          }
          StaysBound(inside, w', rest, ds[0]);
        }
      }
    }
  }

  lemma {:induction false} NothingLeftToDo(inside: Value -> Names, w: World, ds: seq<Descriptor>)
    requires AllApplied(w, ds)
    ensures Apply(inside, w, ds) == (w, None)
    decreases |ds|
  {
    if ds != [] { NothingLeftToDo(inside, w, ds[1..]); }
  }

  lemma {:induction false} AppliesAll(inside: Value -> Names, w: World, ds: seq<Descriptor>)
    requires Apply(inside, w, ds).1.None?
    ensures AllApplied(Apply(inside, w, ds).0, ds) && w.applied <= Apply(inside, w, ds).0.applied
    decreases |ds|
  {
    if ds != [] { AppliesAll(inside, ApplyOne(inside, w, ds[0]).0, ds[1..]); }
  }

  lemma SortedKeeps(ds: seq<Descriptor>)
    requires DistinctKeys(ds)
    ensures StrictlyOrdered(Sorted(ds, RankOf), RankOf) && DistinctKeys(Sorted(ds, RankOf))
    ensures forall d :: d in ds <==> d in Sorted(ds, RankOf)
    ensures var s := Sorted(ds, RankOf);
            forall i, j | 0 <= i < j < |s| ::
              s[i].priority < s[j].priority
              || (s[i].priority == s[j].priority && exists k: nat :: SmallerAt(s[i].key, s[j].key, k))
  {
    hide Sorted;
    var s := Sorted(ds, RankOf);
    SortedSorts(ds, RankOf);
    forall d ensures d in ds <==> d in s { assert d in multiset(ds) <==> d in multiset(s); }
    forall i, j | 0 <= i < j < |s| ensures s[i].key != s[j].key {
      assert s[i] in ds && s[j] in ds;
      BeforeIrreflexive(RankOf(s[i]));
    }
    forall i, j | 0 <= i < j < |s|
      ensures s[i].priority < s[j].priority
              || (s[i].priority == s[j].priority && exists k: nat :: SmallerAt(s[i].key, s[j].key, k))
    {
      assert Before(RankOf(s[i]), RankOf(s[j]));
      LexLessIff(s[i].key, s[j].key);
    }
  }

  /** No target is another's prefix, whoever comes first. */
  ghost predicate PrefixFree(ds: seq<Descriptor>)
  {
    forall i, j | 0 <= i < |ds| && 0 <= j < |ds| && i != j && ds[i].active && ds[j].active ::
      !(ds[j].target <= ds[i].target)
  }

  lemma PrefixFreeIsSafe(w: World, ds: seq<Descriptor>)
    requires DistinctKeys(ds) && PrefixFree(ds)
    ensures Safe(w, Sorted(ds, RankOf))
  {
    hide Sorted;
    var s := Sorted(ds, RankOf);
    SortedKeeps(ds);
    forall i, j | 0 <= i < |s| && 0 <= j < |s| && i != j && s[i].active && s[j].active
      ensures !(s[j].target <= s[i].target)
    {
      assert s[i] in ds && s[j] in ds;
      var k :| 0 <= k < |ds| && ds[k] == s[i];
      var l :| 0 <= l < |ds| && ds[l] == s[j];
      assert k != l;
    }
  }

  lemma SameElements(a: seq<Descriptor>, b: seq<Descriptor>, w: World)
    requires forall d :: d in a <==> d in b
    ensures AppliedBound(w, a) ==> AppliedBound(w, b)
    ensures AllApplied(w, a) ==> AllApplied(w, b)
  {
    forall i | 0 <= i < |b| ensures exists k :: 0 <= k < |a| && a[k] == b[i] { assert b[i] in a; }
  }

  /** What apply_registered_patches leaves behind, successful or not. */
  lemma ApplyInOrder(inside: Value -> Names, w: World, ds: seq<Descriptor>)
    requires DistinctKeys(ds) && PrefixFree(ds) && AppliedBound(w, ds)
    ensures var (w', failure) := Apply(inside, w, Sorted(ds, RankOf));
            AppliedBound(w', ds) && (failure.None? ==> AllApplied(w', ds) && AllBound(w', ds))
  {
    hide Sorted, Bound;
    var s := Sorted(ds, RankOf);
    var (w', failure) := Apply(inside, w, s);
    SortedKeeps(ds);
    PrefixFreeIsSafe(w, ds);
    SameElements(ds, s, w);
    ApplyBinds(inside, w, s);
    SameElements(s, ds, w');
    if failure.None? { AppliesAll(inside, w, s); }
  }

  /** The patches the loop still has to bind. */
  predicate Due(w: World, d: Descriptor) { d.active && d.key !in w.applied }

  /** Nothing at or above q is due. */
  ghost predicate Untouched(w: World, ds: seq<Descriptor>, q: Path)
  {
    forall i | 0 <= i < |ds| && Due(w, ds[i]) :: !(ds[i].target <= q)
  }

  ghost predicate FailsAs(names: Names, d: Descriptor, failure: Failure)
  {
    || (failure == Unresolvable && !Resolvable(names, d.target))
    || (failure == VerifyFailed && d.verify == Custom(false) && Bound(names, d))
  }

  /**
   Where the loop stops. Of the first n descriptors every one that was due is marked, and no other is; names that no due
   target covers stay; and it stops before the end only at a due descriptor that does not resolve or verify.
   */
  lemma {:induction false} ApplyStopsAt(inside: Value -> Names, w: World, ds: seq<Descriptor>) returns (n: nat)
    requires DistinctKeys(ds)
    ensures n <= |ds|
    ensures var (w', failure) := Apply(inside, w, ds);
            && (failure.None? <==> n == |ds|)
            && (failure.Some? ==> Due(w, ds[n]) && FailsAs(w'.names, ds[n], failure.value))
            && (forall key :: key in w'.applied <==>
                  key in w.applied || exists i :: 0 <= i < n && ds[i].active && ds[i].key == key)
            && (forall i | 0 <= i < n && Due(w, ds[i]) :: ds[i].verify != Custom(false))
            && forall q | Untouched(w, ds, q) :: w'.names(q) == w.names(q)
    decreases |ds|
  {
    n := 0;
    if ds != [] {
      var (w1, failure) := ApplyOne(inside, w, ds[0]);
      var rest := ds[1..];
      assert forall i | 0 <= i < |rest| :: rest[i] == ds[i + 1];
      if failure.None? {
        var m := ApplyStopsAt(inside, w1, rest);
        n := m + 1;
        var (w', _) := Apply(inside, w1, rest);
        forall i | 0 <= i < |rest| ensures Due(w1, rest[i]) <==> Due(w, rest[i]) { assert rest[i].key != ds[0].key; }
        forall key
          ensures key in w'.applied <==>
                  key in w.applied || exists i :: 0 <= i < n && ds[i].active && ds[i].key == key
        {
          if i :| 0 <= i < m && rest[i].active && rest[i].key == key { assert ds[i + 1].key == key; }
          if i :| 0 <= i < n && ds[i].active && ds[i].key == key { assert i > 0 ==> rest[i - 1].key == key; }
        }
        forall q | Untouched(w, ds, q) ensures w'.names(q) == w.names(q) {
          assert Untouched(w1, rest, q);
          assert Due(w, ds[0]) ==> !(ds[0].target <= q);
        }
      }
    }
  }

  /** A second apply after a successful one changes nothing. */
  lemma SecondApplyIsIdle(inside: Value -> Names, w: World, ds: seq<Descriptor>)
    requires Apply(inside, w, ds).1.None?
    ensures Apply(inside, Apply(inside, w, ds).0, ds) == (Apply(inside, w, ds).0, None)
  {
    AppliesAll(inside, w, ds);
    NothingLeftToDo(inside, Apply(inside, w, ds).0, ds);
  }

  /** The order of registration does not matter: the same descriptors are applied in the same order. */
  lemma RegistrationOrderIrrelevant(inside: Value -> Names, w: World, a: seq<Descriptor>, b: seq<Descriptor>)
    requires DistinctKeys(a) && DistinctKeys(b) && multiset(a) == multiset(b)
    ensures Apply(inside, w, Sorted(a, RankOf)) == Apply(inside, w, Sorted(b, RankOf))
    ensures WellLaidOut(a) ==> WellLaidOut(b)
  {
    SortedSorts(a, RankOf);
    SortedSorts(b, RankOf);
    StrictOrderIsUnique(Sorted(a, RankOf), Sorted(b, RankOf), RankOf);
    forall i | 0 <= i < |b| ensures b[i] in a { assert b[i] in multiset(b); }
    if WellLaidOut(a) {
      forall i, j | 0 <= i < j < |b| && b[i].active && b[j].active ensures b[i].target != b[j].target {
        var k :| 0 <= k < |a| && a[k] == b[i];
        var l :| 0 <= l < |a| && a[l] == b[j];
        assert k != l;
      }
    }
  }

  /******* Exactly when every apply binds every target *******/

  ghost predicate AlwaysBinds(ds: seq<Descriptor>)
  {
    forall inside: Value -> Names, names: Names | Apply(inside, World(names, {}), ds).1.None? ::
      AllBound(Apply(inside, World(names, {}), ds).0, ds)
  }

  /** No target is a prefix of one applied before it. */
  ghost predicate NoLaterPrefix(ds: seq<Descriptor>)
  {
    forall i, j | 0 <= i < j < |ds| && ds[i].active && ds[j].active :: !(ds[j].target <= ds[i].target)
  }

  function Everything(v: Value): Names { _ => Some(v) }

  predicate CannotFail(d: Descriptor) { |d.target| >= 2 && (d.verify.Custom? ==> d.verify.passes) }

  /** Where everything resolves and everything inside a replacement is v, binding d's target to v cannot be undone... */
  lemma {:induction false} StaysLost(v: Value, w: World, ds: seq<Descriptor>, d: Descriptor)
    requires forall q :: w.names(q).Some?
    requires forall i | 0 <= i < |ds| && ds[i].active :: CannotFail(ds[i]) && ds[i].target != d.target
    ensures Apply(_ => Everything(v), w, ds).1.None?
    ensures w.names(d.target) == Some(v) ==> Apply(_ => Everything(v), w, ds).0.names(d.target) == Some(v)
    decreases |ds|
  {
    if ds != [] { StaysLost(v, ApplyOne(_ => Everything(v), w, ds[0]).0, ds[1..], d); }
  }

  /** ... and a patch above d's target binds it so. */
  lemma {:induction false} GetsLost(v: Value, w: World, ds: seq<Descriptor>, d: Descriptor, j: nat)
    requires (forall q :: w.names(q).Some?) && DistinctKeys(ds)
    requires j < |ds| && ds[j].active && ds[j].key !in w.applied && ds[j].target < d.target
    requires forall i | 0 <= i < |ds| && ds[i].active :: CannotFail(ds[i]) && (i >= j ==> ds[i].target != d.target)
    ensures Apply(_ => Everything(v), w, ds).1.None?
    ensures Apply(_ => Everything(v), w, ds).0.names(d.target) == Some(v)
    decreases |ds|
  {
    var w' := ApplyOne(_ => Everything(v), w, ds[0]).0;
    if j == 0 {
      assert w'.names(d.target) == Some(v);
      StaysLost(v, w', ds[1..], d);
    } else {
      GetsLost(v, w', ds[1..], d, j - 1);
    }
  }

  /**
   Provided each patch can be applied at all, every target ends bound in every environment exactly when no
   later target is above an earlier one.
   */
  lemma AlwaysBindsIff(ds: seq<Descriptor>)
    requires DistinctKeys(ds) && WellLaidOut(ds) && forall i | 0 <= i < |ds| && ds[i].active :: CannotFail(ds[i])
    ensures AlwaysBinds(ds) <==> NoLaterPrefix(ds)
  {
    if NoLaterPrefix(ds) {
      forall inside: Value -> Names, names: Names | Apply(inside, World(names, {}), ds).1.None?
        ensures AllBound(Apply(inside, World(names, {}), ds).0, ds)
      {
        ApplyBinds(inside, World(names, {}), ds);
        AppliesAll(inside, World(names, {}), ds);
      }
    } else {
      var i, j :| 0 <= i < j < |ds| && ds[i].active && ds[j].active && ds[j].target <= ds[i].target;
      var v := ds[i].replacement + 1;
      var inside, names := (_: Value) => Everything(v), Everything(0);
      GetsLost(v, World(names, {}), ds, ds[i], j);
      assert !Bound(Apply(inside, World(names, {}), ds).0.names, ds[i]);
    }
  }

  /******* Any sequence of registrations and applies *******/

  datatype Store = Store(descriptors: seq<Descriptor>, world: World)

  datatype Op = Register(d: Descriptor) | ApplyRegistered

  function Registered(inside: Value -> Names, s: Store, d: Descriptor): (Store, Option<Failure>)
  {
    if d.immediate && d.priority != DEFAULT_PRIORITY then (s, Some(ImmediateWithPriority))
    else if HasKey(s.descriptors, d.key) then (s, None)
    else
      var s' := s.(descriptors := s.descriptors + [d]);
      if !d.immediate || !d.active then (s', None)
      else if !Resolvable(s.world.names, d.target) then (s', Some(Unresolvable))
      else (s'.(world := s.world.(names := Bind(inside, s.world.names, d.target, d.replacement))), None)
  }

  predicate Refused(d: Descriptor) { d.immediate && d.priority != DEFAULT_PRIORITY }

  /** Everything from the target on down comes from the replacement, and nothing else changes. */
  ghost predicate Rebound(inside: Value -> Names, before: Names, after: Names, d: Descriptor)
  {
    && Bound(after, d)
    && (forall rest: Path | rest != [] :: after(d.target + rest) == inside(d.replacement)(rest))
    && forall q | !(d.target <= q) :: after(q) == before(q)
  }

  /** What registering does to the registry, by what it finds there. */
  ghost predicate Registers(inside: Value -> Names, before: Store, d: Descriptor, after: Store,
                            failure: Option<Failure>)
  {
    var added := !Refused(d) && forall i | 0 <= i < |before.descriptors| :: before.descriptors[i].key != d.key;
    var resolves := |d.target| >= 2 && before.world.names(d.target[..|d.target| - 1]).Some?;
    && after.descriptors == (if added then before.descriptors + [d] else before.descriptors)
    && after.world.applied == before.world.applied
    && (if added && d.immediate && d.active && resolves
        then Rebound(inside, before.world.names, after.world.names, d)
        else after.world.names == before.world.names)
    && failure == if Refused(d) then Some(ImmediateWithPriority)
                  else if added && d.immediate && d.active && !resolves then Some(Unresolvable)
                  else None
  }

  lemma RegisteredRegisters(inside: Value -> Names, s: Store, d: Descriptor)
    ensures Registers(inside, s, d, Registered(inside, s, d).0, Registered(inside, s, d).1)
  {
    forall rest: Path | rest != [] ensures Bind(inside, s.world.names, d.target, d.replacement)(d.target + rest)
                                           == inside(d.replacement)(rest)
    {
      assert (d.target + rest)[|d.target|..] == rest;
      assert d.target < d.target + rest;
    }
  }

  ghost function Next(inside: Value -> Names, s: Store, op: Op): Store
  {
    match op
    case Register(d) => Registered(inside, s, d).0
    case ApplyRegistered => if WellLaidOut(s.descriptors)
           then s.(world := Apply(inside, s.world, Sorted(s.descriptors, RankOf)).0) else s
  }

  ghost function After(inside: Value -> Names, s: Store, ops: seq<Op>): Store
    decreases |ops|
  {
    if ops == [] then s else After(inside, Next(inside, s, ops[0]), ops[1..])
  }

  ghost predicate Consistent(s: Store)
  {
    && DistinctKeys(s.descriptors)
    && (forall key | key in s.world.applied :: HasKey(s.descriptors, key))
    && AppliedBound(s.world, s.descriptors)
  }

  lemma RegisteringKeepsConsistent(inside: Value -> Names, s: Store, d: Descriptor)
    requires Consistent(s) && PrefixFree(Registered(inside, s, d).0.descriptors)
    ensures Consistent(Registered(inside, s, d).0)
  {
    var s' := Registered(inside, s, d).0;
    var n := |s.descriptors|;
    if |s'.descriptors| > n {
      assert !HasKey(s.descriptors, d.key);
      forall key | HasKey(s.descriptors, key) ensures HasKey(s'.descriptors, key) {
        var i :| 0 <= i < n && s.descriptors[i].key == key;
        assert s'.descriptors[i].key == key;
      }
      forall i | 0 <= i < n && s.descriptors[i].active && s.descriptors[i].key in s.world.applied
        ensures Bound(s'.world.names, s.descriptors[i])
      {
        assert s'.descriptors[i] == s.descriptors[i] && s'.descriptors[n] == d;
        assert d.active ==> !(d.target <= s.descriptors[i].target);
      }
    }
  }

  lemma NextKeepsConsistent(inside: Value -> Names, s: Store, op: Op)
    requires Consistent(s) && PrefixFree(Next(inside, s, op).descriptors)
    ensures Consistent(Next(inside, s, op)) && s.descriptors <= Next(inside, s, op).descriptors
  {
    hide Sorted;
    var s' := Next(inside, s, op);
    match op
    case Register(d) =>
      RegisteringKeepsConsistent(inside, s, d);
    case ApplyRegistered =>
      if WellLaidOut(s.descriptors) {
        var sorted := Sorted(s.descriptors, RankOf);
        ApplyInOrder(inside, s.world, s.descriptors);
        SortedKeeps(s.descriptors);
        forall key | key in s'.world.applied ensures HasKey(s.descriptors, key) {
          AppliedKeys(inside, s.world, sorted, key);
          if HasKey(sorted, key) {
            var i :| 0 <= i < |sorted| && sorted[i].key == key;
            assert sorted[i] in s.descriptors;
          }
        }
      }
  }

  /** Keys stay unique, and a patch once applied stays bound, through any run whose targets are prefix-free. */
  lemma {:induction false} RunKeepsConsistent(inside: Value -> Names, s: Store, ops: seq<Op>)
    requires Consistent(s) && PrefixFree(After(inside, s, ops).descriptors)
    ensures Consistent(After(inside, s, ops)) && s.descriptors <= After(inside, s, ops).descriptors
    decreases |ops|
  {
    if ops != [] {
      var s' := Next(inside, s, ops[0]);
      DescriptorsGrow(inside, s', ops[1..]);
      NextKeepsConsistent(inside, s, ops[0]);
      RunKeepsConsistent(inside, s', ops[1..]);
    }
  }

  lemma {:induction false} DescriptorsGrow(inside: Value -> Names, s: Store, ops: seq<Op>)
    ensures s.descriptors <= After(inside, s, ops).descriptors
    decreases |ops|
  {
    if ops != [] { DescriptorsGrow(inside, Next(inside, s, ops[0]), ops[1..]); }
  }

  /** The first registration for its key that is not refused. */
  ghost predicate FirstFor(ops: seq<Op>, i: nat, d: Descriptor)
  {
    && i < |ops| && ops[i] == Register(d) && !Refused(d)
    && forall j | 0 <= j < i && ops[j].Register? && !Refused(ops[j].d) :: ops[j].d.key != d.key
  }

  ghost predicate RegisteredFirst(ops: seq<Op>, d: Descriptor) { exists i: nat :: FirstFor(ops, i, d) }

  lemma FirstForLater(op: Op, ops: seq<Op>, d: Descriptor)
    ensures RegisteredFirst([op] + ops, d)
            <==> || (op == Register(d) && !Refused(d))
                 || (RegisteredFirst(ops, d) && !(op.Register? && !Refused(op.d) && op.d.key == d.key))
  {
    var all := [op] + ops;
    if RegisteredFirst(all, d) {
      var i: nat :| FirstFor(all, i, d);
      if i > 0 {
        forall j | 0 <= j < i - 1 && ops[j].Register? && !Refused(ops[j].d) ensures ops[j].d.key != d.key {
          assert all[j + 1] == ops[j];
        }
        assert FirstFor(ops, i - 1, d);
        assert all[0] == op;
      }
    }
    if op == Register(d) && !Refused(d) {
      assert FirstFor(all, 0, d);
    } else if RegisteredFirst(ops, d) && !(op.Register? && !Refused(op.d) && op.d.key == d.key) {
      var i: nat :| FirstFor(ops, i, d);
      forall j | 0 <= j < i + 1 && all[j].Register? && !Refused(all[j].d) ensures all[j].d.key != d.key {
        if j > 0 { assert all[j] == ops[j - 1]; }
      }
      assert FirstFor(all, i + 1, d);
    }
  }

  /** What is listed in the end: what was, and for every other key its first registration. */
  lemma {:induction false} RunListsFirst(inside: Value -> Names, s: Store, ops: seq<Op>, d: Descriptor)
    ensures d in After(inside, s, ops).descriptors
            <==> d in s.descriptors || (RegisteredFirst(ops, d) && !HasKey(s.descriptors, d.key))
    decreases |ops|
  {
    if ops != [] {
      var op, s' := ops[0], Next(inside, s, ops[0]);
      assert ops == [op] + ops[1..];
      FirstForLater(op, ops[1..], d);
      RunListsFirst(inside, s', ops[1..], d);
      assert d in s.descriptors ==> HasKey(s.descriptors, d.key);
      if op.Register? && s'.descriptors == s.descriptors + [op.d] {
        assert HasKey(s'.descriptors, d.key) <==> HasKey(s.descriptors, d.key) || op.d.key == d.key by {
          assert s'.descriptors[|s.descriptors|] == op.d;
          if i :| 0 <= i < |s.descriptors| && s.descriptors[i].key == d.key { assert s'.descriptors[i].key == d.key; }
        }
      }
    }
  }

  /** After any registrations and applies, a last apply that succeeds binds the first registration for every key. */
  lemma RunBindsFirst(inside: Value -> Names, names: Names, ops: seq<Op>, d: Descriptor)
    requires var s := After(inside, Store([], World(names, {})), ops);
             && PrefixFree(s.descriptors) && WellLaidOut(s.descriptors)
             && Apply(inside, s.world, Sorted(s.descriptors, RankOf)).1.None?
    requires RegisteredFirst(ops, d) && d.active
    ensures var s := After(inside, Store([], World(names, {})), ops);
            Bound(Next(inside, s, ApplyRegistered).world.names, d)
  {
    hide Sorted, Bound, RegisteredFirst;
    var empty := Store([], World(names, {}));
    var s := After(inside, empty, ops);
    RunListsFirst(inside, empty, ops, d);
    RunKeepsConsistent(inside, empty, ops);
    ApplyInOrder(inside, s.world, s.descriptors);
    var i :| 0 <= i < |s.descriptors| && s.descriptors[i] == d;
  }

  class PatchRegistry {
    const inside: Value -> Names
    var descriptors: seq<Descriptor>
    var world: World

    ghost predicate Valid()
      reads this
    {
      DistinctKeys(descriptors)
    }

    constructor (inside: Value -> Names, names: Names)
      ensures Valid() && descriptors == [] && world == World(names, {}) && this.inside == inside
    {
      this.inside := inside;
      descriptors := [];
      world := World(names, {});
    }

    /** register_patch, applied to its replacement. */
    method Register(d: Descriptor) returns (failure: Option<Failure>)
      requires Valid()
      modifies this
      ensures Valid()
      ensures (Store(descriptors, world), failure) == Registered(inside, Store(old(descriptors), old(world)), d)
      ensures Registers(inside, Store(old(descriptors), old(world)), d, Store(descriptors, world), failure)
    {
      RegisteredRegisters(inside, Store(descriptors, world), d);
      if d.immediate && d.priority != DEFAULT_PRIORITY {
        return Some(ImmediateWithPriority);
      }
      for i := 0 to |descriptors|
        invariant forall j | 0 <= j < i :: descriptors[j].key != d.key
      {
        if descriptors[i].key == d.key {
          return None;
        }
      }
      descriptors := descriptors + [d];
      failure := None;
      if d.immediate && d.active {
        if Resolvable(world.names, d.target) {
          world := world.(names := Bind(inside, world.names, d.target, d.replacement));
        } else {
          failure := Some(Unresolvable);
        }
      }
    }

    /** _validate_patch_registry_layout */
    method Validate() returns (failure: Option<Failure>)
      requires Valid()
      ensures failure.None? <==> WellLaidOut(descriptors)
      ensures failure.None? || failure == Some(BadPriority) || failure == Some(DuplicateTarget)
      ensures failure == Some(BadPriority) ==>
        exists i :: 0 <= i < |descriptors| && descriptors[i].active
          && !(MIN_PRIORITY <= descriptors[i].priority <= MAX_PRIORITY)
      ensures failure == Some(DuplicateTarget) ==>
        exists i, j :: 0 <= i < j < |descriptors| && descriptors[i].active && descriptors[j].active
          && descriptors[i].target == descriptors[j].target
    {
      var keys: set<string>, targets: set<Path> := {}, {};
      for i := 0 to |descriptors|
        invariant WellLaidOut(descriptors[..i])
        invariant forall k :: k in keys <==> exists j :: 0 <= j < i && descriptors[j].active && descriptors[j].key == k
        invariant forall t :: t in targets <==>
                    exists j :: 0 <= j < i && descriptors[j].active && descriptors[j].target == t
      {
        var d := descriptors[i];
        if d.active {
          if !(MIN_PRIORITY <= d.priority <= MAX_PRIORITY) {
            return Some(BadPriority);
          }
          if d.key in keys {
            return Some(DuplicateKey);
          }
          keys := keys + {d.key};
          if d.target in targets {
            return Some(DuplicateTarget);
          }
          targets := targets + {d.target};
        }
      }
      assert descriptors[..|descriptors|] == descriptors;
      failure := None;
    }

    /** apply_registered_patches */
    method ApplyRegistered() returns (failure: Option<Failure>)
      requires Valid()
      modifies this`world
      ensures !WellLaidOut(descriptors) ==> failure.Some? && world == old(world)
      ensures WellLaidOut(descriptors) ==> (world, failure) == Apply(inside, old(world), Sorted(descriptors, RankOf))
    {
      hide Sorted;
      failure := Validate();
      if failure.Some? {
        return;
      }
      var ds := Sorted(descriptors, RankOf);
      for i := 0 to |ds|
        invariant Apply(inside, old(world), ds) == Apply(inside, world, ds[i..])
      {
        var d := ds[i];
        assert ds[i..][0] == d && ds[i..][1..] == ds[i + 1..];
        if d.key in world.applied {
          continue;
        }
        if !d.active {
          continue;
        }
        if !Resolvable(world.names, d.target) {
          return Some(Unresolvable);
        }
        world := world.(names := Bind(inside, world.names, d.target, d.replacement));
        if d.verify.Custom? {
          if !d.verify.passes { return Some(VerifyFailed); }
        } else if !Bound(world.names, d) {
          return Some(VerifyFailed);
        }
        world := world.(applied := world.applied + {d.key});
      }
      failure := None;
    }
  }
}
