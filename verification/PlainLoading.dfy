/**
 What the recursive loader delivers, weight by weight.

 A weight's name is followed down the module tree on its own. The claim is that the loader without the patch, which
 groups weights by prefix and recurses into children with whole groups, does to each weight what its name says, in the
 order of the checkpoint.
 */
module PlainLoading {
  import opened Options
  import opened TiedLoader

  /** What becomes of one weight. */
  datatype Fate = Dropped | Delivered(path: string) | Refused(error: Error)

  function Given(config: Config, path: string, t: Tensor): Fate
  {
    if config.accepts(path, t) then Delivered(path) else Refused(LoaderRaised)
  }

  predicate Skipped(prefix: string, prefixes: seq<string>)
  {
    StartsWithAny(prefix + ".", prefixes) || StartsWithAny(prefix, prefixes)
  }

  /** A name that leads to a parameter at `path`, with `rest` left over. */
  function FateAtParam(config: Config, path: string, rest: seq<string>, t: Tensor, skip: seq<string>): Fate
  {
    var full := Qualified(path, Joined(rest));
    if StartsWithAny(path, skip) || StartsWithAny(full, skip) then Dropped
    else if rest == [] then Given(config, path, t)
    else if StartsWithAny(full, config.ignored) then Dropped
    else Refused(NestedName)
  }

  /** The weight whose name is `head` and then `rest`, below a module with these children and parameters. */
  function FateBelow(config: Config, base: string, m: Module, head: string, rest: seq<string>, t: Tensor,
                     skip: seq<string>): Fate
    requires m.Tree?
    decreases m, 0
  {
    var path, child := Qualified(base, head), Find(m.children, head);
    if child.Some? then
      if StartsWithAny(path + ".", skip) then Dropped else FateOf(config, path, child.value, rest, t, skip)
    else if head in m.params then FateAtParam(config, path, rest, t, skip)
    else if Skipped(path, skip) || Skipped(path, config.ignored) then Dropped
    else Refused(NoSuchName)
  }

  function FateOf(config: Config, base: string, m: Module, name: seq<string>, t: Tensor, skip: seq<string>): Fate
    decreases m, 1
  {
    match m
    case Absent => Dropped
    case SelfLoading => Given(config, Qualified(base, Joined(name)), t)
    case Tree(children, params) => FateBelow(config, base, m, Head(name), Tail(name), t, skip)
  }

  function Of(fate: Fate, t: Tensor, replayed: bool): Outcome
  {
    match fate
    case Dropped => Ok([])
    case Delivered(path) => Ok([Delivery(path, t, replayed)])
    case Refused(e) => Err(e)
  }

  /** Every weight on its own, in order, up to the first refusal. */
  function Each(config: Config, base: string, m: Module, ws: seq<Weight>, skip: seq<string>, replayed: bool): Outcome
  {
    if ws == [] then Ok([])
    else Then(Of(FateOf(config, base, m, ws[0].name, ws[0].tensor, skip), ws[0].tensor, replayed),
      Each(config, base, m, ws[1..], skip, replayed))
  }

  function EachBelow(config: Config, base: string, m: Module, g: Group, skip: seq<string>, replayed: bool): Outcome
    requires m.Tree?
    decreases |g.weights|
  {
    if g.weights == [] then Ok([])
    else
      var w := g.weights[0];
      Then(Of(FateBelow(config, base, m, g.prefix, w.name, w.tensor, skip), w.tensor, replayed),
        EachBelow(config, base, m, Group(g.prefix, g.weights[1..]), skip, replayed))
  }

  function OverGroups(config: Config, base: string, m: Module, groups: seq<Group>, skip: seq<string>,
                      replayed: bool): Outcome
    requires m.Tree?
  {
    if groups == [] then Ok([])
    else Then(EachBelow(config, base, m, groups[0], skip, replayed),
      OverGroups(config, base, m, groups[1..], skip, replayed))
  }

  lemma ThenAssociates(a: Outcome, b: Outcome, c: Outcome)
    ensures Then(Then(a, b), c) == Then(a, Then(b, c))
  {
    if a.Ok? && b.Ok? && c.Ok? { assert (a.value + b.value) + c.value == a.value + (b.value + c.value); }
  }

  lemma {:induction false} GroupsHoldAll(config: Config, base: string, m: Module, ws: seq<Weight>, skip: seq<string>,
                                         replayed: bool)
    requires m.Tree?
    ensures Each(config, base, m, ws, skip, replayed) == OverGroups(config, base, m, Groups(ws), skip, replayed)
  {
    hide FateBelow, Then;
    if ws != [] {
      GroupsHoldAll(config, base, m, ws[1..], skip, replayed);
      var head, w, later := Head(ws[0].name), Weight(Tail(ws[0].name), ws[0].tensor), Groups(ws[1..]);
      var one := Of(FateBelow(config, base, m, head, w.name, w.tensor, skip), w.tensor, replayed);
      if later != [] && later[0].prefix == head {
        var g := Group(head, [w] + later[0].weights);
        assert g.weights[1..] == later[0].weights;
        assert EachBelow(config, base, m, g, skip, replayed)
            == Then(one, EachBelow(config, base, m, later[0], skip, replayed));
        assert Groups(ws)[0] == g && Groups(ws)[1..] == later[1..];
        ThenAssociates(one, EachBelow(config, base, m, later[0], skip, replayed),
                       OverGroups(config, base, m, later[1..], skip, replayed));
      } else {
        var g := Group(head, [w]);
        assert g.weights[1..] == [];
        assert EachBelow(config, base, m, Group(head, []), skip, replayed) == Ok([]);
        assert EachBelow(config, base, m, g, skip, replayed) == Then(one, Ok([]));
        ThenNothing(one);
        assert Groups(ws)[0] == g && Groups(ws)[1..] == later;
      }
    }
  }

  lemma {:induction false} ParamTakesEach(config: Config, base: string, m: Module, g: Group, skip: seq<string>,
                                          replayed: bool)
    requires m.Tree? && Find(m.children, g.prefix).None? && g.prefix in m.params
    requires !StartsWithAny(Qualified(base, g.prefix), skip)
    ensures LoadParam(config, Qualified(base, g.prefix), g.weights, skip, replayed)
         == EachBelow(config, base, m, g, skip, replayed)
    decreases |g.weights|
  {
    if g.weights != [] {
      var later := Group(g.prefix, g.weights[1..]);
      ParamTakesEach(config, base, m, later, skip, replayed);
      assert Qualified(Qualified(base, g.prefix), Joined([])) == Qualified(base, g.prefix);
      ThenNothing(LoadParam(config, Qualified(base, g.prefix), later.weights, skip, replayed));
    }
  }

  /** A group whose every weight is dropped, or of which the first is refused. */
  lemma {:induction false} GroupDropped(config: Config, base: string, m: Module, g: Group, skip: seq<string>,
                                        replayed: bool)
    requires m.Tree?
    requires forall i | 0 <= i < |g.weights| ::
               FateBelow(config, base, m, g.prefix, g.weights[i].name, g.weights[i].tensor, skip).Dropped?
    ensures EachBelow(config, base, m, g, skip, replayed) == Ok([])
    decreases |g.weights|
  {
    if g.weights != [] {
      var later := Group(g.prefix, g.weights[1..]);
      forall i | 0 <= i < |later.weights|
        ensures FateBelow(config, base, m, g.prefix, later.weights[i].name, later.weights[i].tensor, skip).Dropped?
      {
        assert later.weights[i] == g.weights[i + 1];
      }
      GroupDropped(config, base, m, later, skip, replayed);
      ThenNothing(Ok([]));
    }
  }

  lemma SelfTakesFirst(config: Config, base: string, ws: seq<Weight>, replayed: bool)
    requires ws != []
    ensures var first := Qualified(base, Joined(ws[0].name));
            LoadItself(config, base, ws, replayed)
            == Then(Of(Given(config, first, ws[0].tensor), ws[0].tensor, replayed),
                    LoadItself(config, base, ws[1..], replayed))
  {
    hide Joined, Qualified;
    var first, rest := Qualified(base, Joined(ws[0].name)), ws[1..];
    assert DeliverAll(base, ws, replayed)
        == [Delivery(first, ws[0].tensor, replayed)] + DeliverAll(base, rest, replayed);
    assert forall i | 0 < i < |ws| :: ws[i] == rest[i - 1];
    assert forall i | 0 <= i < |rest| :: rest[i] == ws[i + 1];
  }

  lemma {:induction false} SelfTakesEach(config: Config, base: string, ws: seq<Weight>, skip: seq<string>,
                                         replayed: bool)
    ensures LoadItself(config, base, ws, replayed) == Each(config, base, SelfLoading, ws, skip, replayed)
  {
    if ws == [] {
      assert DeliverAll(base, ws, replayed) == [];
    } else {
      hide LoadItself, Joined, Qualified;
      SelfTakesFirst(config, base, ws, replayed);
      SelfTakesEach(config, base, ws[1..], skip, replayed);
    }
  }

  lemma {:induction false} ChildTakesEach(config: Config, base: string, m: Module, g: Group, skip: seq<string>,
                                          replayed: bool)
    requires m.Tree? && Find(m.children, g.prefix).Some? && !StartsWithAny(Qualified(base, g.prefix) + ".", skip)
    ensures EachBelow(config, base, m, g, skip, replayed)
         == Each(config, Qualified(base, g.prefix), Find(m.children, g.prefix).value, g.weights, skip, replayed)
    decreases |g.weights|
  {
    if g.weights != [] { ChildTakesEach(config, base, m, Group(g.prefix, g.weights[1..]), skip, replayed); }
  }

  lemma {:induction false} NothingTaken(config: Config, base: string, ws: seq<Weight>, skip: seq<string>,
                                        replayed: bool)
    ensures Each(config, base, Absent, ws, skip, replayed) == Ok([])
  {
    if ws != [] {
      NothingTaken(config, base, ws[1..], skip, replayed);
      ThenNothing(Ok([]));
    }
  }

  lemma {:induction false} GroupsAreFull(ws: seq<Weight>)
    ensures forall i | 0 <= i < |Groups(ws)| :: Groups(ws)[i].weights != []
  {
    if ws != [] { GroupsAreFull(ws[1..]); }
  }

  /** The loader without the patch treats every weight as its own name says. */
  lemma {:induction false} PlainLoadsEach(config: Config, base: string, m: Module, ws: seq<Weight>, skip: seq<string>,
                                          replayed: bool)
    ensures Load(config, false, base, m, ws, skip, replayed) == Each(config, base, m, ws, skip, replayed)
    decreases m, 1
  {
    match m
    case Absent => NothingTaken(config, base, ws, skip, replayed);
    case SelfLoading => SelfTakesEach(config, base, ws, skip, replayed);
    case Tree(children, params) =>
      GroupsHoldAll(config, base, m, ws, skip, replayed);
      GroupsAreFull(ws);
      GroupsLoadEach(config, base, m, Groups(ws), skip, replayed);
      ThenNothing(LoadGroups(config, false, base, m, Groups(ws), skip, replayed));
  }

  lemma {:induction false} GroupsLoadEach(config: Config, base: string, m: Module, groups: seq<Group>,
                                          skip: seq<string>, replayed: bool)
    requires m.Tree? && forall i | 0 <= i < |groups| :: groups[i].weights != []
    ensures LoadGroups(config, false, base, m, groups, skip, replayed)
         == OverGroups(config, base, m, groups, skip, replayed)
    decreases m, 0, |groups|
  {
    if groups != [] {
      GroupsLoadEach(config, base, m, groups[1..], skip, replayed);
      var g := groups[0];
      var path, child := Qualified(base, g.prefix), Find(m.children, g.prefix);
      if child.Some? && !StartsWithAny(path + ".", skip) {
        PlainLoadsEach(config, path, child.value, g.weights, skip, replayed);
        ChildTakesEach(config, base, m, g, skip, replayed);
      } else if child.None? {
        OtherTakesEach(config, base, m, g, skip, replayed);
      } else {
        GroupDropped(config, base, m, g, skip, replayed);
      }
    }
  }

  lemma OtherTakesEach(config: Config, base: string, m: Module, g: Group, skip: seq<string>, replayed: bool)
    requires m.Tree? && g.weights != [] && Find(m.children, g.prefix).None?
    ensures LoadOther(config, base, m.params, g, skip, replayed) == EachBelow(config, base, m, g, skip, replayed)
  {
    var path := Qualified(base, g.prefix);
    if g.prefix in m.params && !StartsWithAny(path, skip) {
      ParamTakesEach(config, base, m, g, skip, replayed);
    } else if g.prefix in m.params || Skipped(path, skip) || Skipped(path, config.ignored) {
      GroupDropped(config, base, m, g, skip, replayed);
    }
  }

  /******* What that makes of a whole checkpoint *******/

  /** What one weight on its own makes of the load: nothing, one delivery, or the error. */
  function Alone(config: Config, base: string, m: Module, skip: seq<string>, replayed: bool): (r: Weight -> Outcome)
    ensures forall w: Weight | r(w).Ok? :: |r(w).value| <= 1
  {
    (w: Weight) => Of(FateOf(config, base, m, w.name, w.tensor, skip), w.tensor, replayed)
  }

  function InTurn(ws: seq<Weight>, alone: Weight -> Outcome): Outcome
  {
    if ws == [] then Ok([]) else Then(alone(ws[0]), InTurn(ws[1..], alone))
  }

  /** The deliveries are those of the weights at these places, in order, and every other weight is dropped. */
  ghost predicate DeliversAt(ws: seq<Weight>, alone: Weight -> Outcome, ds: seq<Delivery>, places: seq<nat>)
  {
    && |places| == |ds|
    && (forall k, l | 0 <= k < l < |places| :: places[k] < places[l])
    && (forall k | 0 <= k < |places| :: places[k] < |ws| && alone(ws[places[k]]) == Ok([ds[k]]))
    && (forall i | 0 <= i < |ws| && i !in places :: alone(ws[i]) == Ok([]))
  }

  ghost predicate RefusedFirst(ws: seq<Weight>, alone: Weight -> Outcome, error: Error, i: nat)
  {
    i < |ws| && alone(ws[i]) == Err(error) && forall j | 0 <= j < i :: alone(ws[j]).Ok?
  }

  lemma {:induction false} EachInTurn(config: Config, base: string, m: Module, ws: seq<Weight>, skip: seq<string>,
                                      replayed: bool)
    ensures Each(config, base, m, ws, skip, replayed) == InTurn(ws, Alone(config, base, m, skip, replayed))
  {
    if ws != [] { EachInTurn(config, base, m, ws[1..], skip, replayed); }
  }

  lemma {:induction false} InTurnLast(ws: seq<Weight>, alone: Weight -> Outcome)
    requires ws != []
    ensures InTurn(ws, alone) == Then(InTurn(ws[..|ws| - 1], alone), alone(ws[|ws| - 1]))
  {
    hide Then;
    var n := |ws| - 1;
    if n == 0 {
      assert InTurn(ws[1..], alone) == Ok([]) && InTurn(ws[..0], alone) == Ok([]);
      ThenNothing(alone(ws[0]));
    } else {
      InTurnLast(ws[1..], alone);
      assert ws[1..][..n - 1] == ws[..n][1..];
      ThenAssociates(alone(ws[0]), InTurn(ws[1..][..n - 1], alone), alone(ws[n]));
    }
  }

  lemma OneMoreDelivered(ws: seq<Weight>, alone: Weight -> Outcome, ds: seq<Delivery>, d: Delivery, before: seq<nat>)
    requires ws != [] && DeliversAt(ws[..|ws| - 1], alone, ds, before) && alone(ws[|ws| - 1]) == Ok([d])
    ensures DeliversAt(ws, alone, ds + [d], before + [|ws| - 1])
  {
    var n := |ws| - 1;
    var places := before + [n];
    assert places[|before|] == n;
    forall i | 0 <= i < |ws| && i !in places ensures alone(ws[i]) == Ok([]) {
      assert i < n && i !in before;
      assert ws[i] == ws[..n][i];
    }
  }

  lemma NoMoreDelivered(ws: seq<Weight>, alone: Weight -> Outcome, ds: seq<Delivery>, before: seq<nat>)
    requires ws != [] && DeliversAt(ws[..|ws| - 1], alone, ds, before) && alone(ws[|ws| - 1]) == Ok([])
    ensures DeliversAt(ws, alone, ds, before)
  {
    var n := |ws| - 1;
    forall i | 0 <= i < |ws| && i !in before ensures alone(ws[i]) == Ok([]) {
      if i < n { assert ws[i] == ws[..n][i]; }
    }
  }

  lemma {:induction false} InTurnDelivers(ws: seq<Weight>, alone: Weight -> Outcome) returns (places: seq<nat>, i: nat)
    requires forall w: Weight | alone(w).Ok? :: |alone(w).value| <= 1
    ensures InTurn(ws, alone).Ok? <==> forall w | w in ws :: alone(w).Ok?
    ensures InTurn(ws, alone).Ok? ==> DeliversAt(ws, alone, InTurn(ws, alone).value, places)
    ensures InTurn(ws, alone).Err? ==> RefusedFirst(ws, alone, InTurn(ws, alone).error, i)
  {
    hide DeliversAt, InTurn;
    places, i := [], 0;
    if ws == [] {
      NothingDelivered(alone);
    } else {
      var n := |ws| - 1;
      InTurnLast(ws, alone);
      assert ws == ws[..n] + [ws[n]];
      places, i := InTurnDelivers(ws[..n], alone);
      var before, last := InTurn(ws[..n], alone), alone(ws[n]);
      if before.Ok? {
        forall j | 0 <= j < n ensures alone(ws[j]).Ok? { assert ws[..n][j] in ws[..n]; }
        i := n;
        if last.Ok? {
          if last.value == [] {
            assert before.value + [] == before.value;
            NoMoreDelivered(ws, alone, before.value, places);
          } else {
            assert last.value == [last.value[0]];
            OneMoreDelivered(ws, alone, before.value, last.value[0], places);
            places := places + [n];
          }
        }
      } else {
        forall j | 0 <= j <= i ensures ws[j] == ws[..n][j] {}
      }
    }
  }

  lemma NothingDelivered(alone: Weight -> Outcome)
    ensures InTurn([], alone) == Ok([]) && DeliversAt([], alone, [], [])
  {
  }

  /** Every weight named to a destination gets there, once and in order, or the first refused one says why not. */
  lemma PlainLoadDelivers(config: Config, base: string, m: Module, ws: seq<Weight>, skip: seq<string>, replayed: bool)
    returns (places: seq<nat>, first: nat)
    ensures var load, alone := Load(config, false, base, m, ws, skip, replayed), Alone(config, base, m, skip, replayed);
            && (load.Ok? <==> forall w | w in ws :: !FateOf(config, base, m, w.name, w.tensor, skip).Refused?)
            && (load.Ok? ==> DeliversAt(ws, alone, load.value, places))
            && (load.Err? ==> RefusedFirst(ws, alone, load.error, first))
  {
    hide FateOf, Load, DeliversAt;
    PlainLoadsEach(config, base, m, ws, skip, replayed);
    EachInTurn(config, base, m, ws, skip, replayed);
    places, first := InTurnDelivers(ws, Alone(config, base, m, skip, replayed));
  }

  /** With the patch, the same holds of all that is not a replay. */
  lemma PatchedLoadDelivers(config: Config, base: string, m: Module, ws: seq<Weight>, skip: seq<string>)
    returns (places: seq<nat>)
    ensures var load := Load(config, true, base, m, ws, skip, false);
            && (load.Ok? <==> && Clean(config, base, m, ws, skip)
                              && forall w | w in ws :: !FateOf(config, base, m, w.name, w.tensor, skip).Refused?)
            && (load.Ok? ==> DeliversAt(ws, Alone(config, base, m, skip, false), Original(load.value), places))
  {
    hide FateOf, Load, DeliversAt, Clean;
    RoutesEverythingElse(config, base, m, ws, skip);
    var at, first := PlainLoadDelivers(config, base, m, ws, skip, false);
    places := at;
  }

  lemma JoinedOne(head: string, rest: seq<string>)
    requires rest != []
    ensures Joined([head] + rest) == head + ("." + Joined(rest))
  {
    assert ([head] + rest)[1..] == rest;
  }

  lemma {:induction false} JoinedIsFull(name: seq<string>)
    requires name != [] && forall i | 0 <= i < |name| :: name[i] != ""
    ensures Joined(name) != ""
  {
  }

  lemma Dotted(base: string, head: string, tail: string)
    requires head != "" && tail != ""
    ensures Qualified(Qualified(base, head), tail) == Qualified(base, head + ("." + tail))
  {
    if base != "" {
      var q := base + "." + head;
      assert (q + ".") + tail == (base + ".") + (head + ("." + tail));
    } else {
      assert (head + ".") + tail == head + ("." + tail);
    }
  }

  lemma QualifiedTwice(base: string, head: string, rest: seq<string>)
    requires forall i | 0 <= i < |rest| :: rest[i] != ""
    requires head == "" ==> rest == []
    ensures Qualified(Qualified(base, head), Joined(rest)) == Qualified(base, Joined([head] + rest))
  {
    if rest != [] {
      hide Joined, Qualified;
      JoinedIsFull(rest);
      JoinedOne(head, rest);
      Dotted(base, head, Joined(rest));
    }
  }

  /** A weight that is delivered arrives under its own full name. */
  lemma {:induction false} DeliveredUnderItsName(config: Config, base: string, m: Module, name: seq<string>, t: Tensor,
                                                 skip: seq<string>)
    requires forall i | 0 <= i < |name| :: name[i] != ""
    ensures var fate := FateOf(config, base, m, name, t, skip);
            fate.Delivered? ==> fate.path == Qualified(base, Joined(name)) && config.accepts(fate.path, t)
    decreases m
  {
    if m.Tree? {
      var head, rest := Head(name), Tail(name);
      QualifiedTwice(base, head, rest);
      assert name != [] ==> [head] + rest == name;
      var child := Find(m.children, head);
      if child.Some? { DeliveredUnderItsName(config, Qualified(base, head), child.value, rest, t, skip); }
    }
  }
}
