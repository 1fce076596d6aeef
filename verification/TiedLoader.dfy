/**
 The recursive weight loader, with embed_tokens captured on the way down and replayed into lm_head.

 A module tree is walked prefix by prefix. Where tied embeddings make lm_head a skipped prefix and tensor
 parallelism breaks the alias, the level above embed_tokens hands its tensor to its own lm_head child.
 */
module TiedLoader {
  import opened Options

  const EMBED_TOKENS := "embed_tokens"
  const LM_HEAD := "lm_head"

  type Tensor = nat

  /** A checkpoint entry; the name is split at its dots. */
  datatype Weight = Weight(name: seq<string>, tensor: Tensor)

  datatype Module =
    | Absent                                          // PPMissingLayer
    | SelfLoading                                     // has its own load_weights, which takes everything
    | Tree(children: Children, params: set<string>)

  datatype Children = Nobody | Child(name: string, it: Module, others: Children)

  /** A tensor given to the weight loader of the parameter with this qualified name. */
  datatype Delivery = Delivery(path: string, tensor: Tensor, replayed: bool)

  datatype Error = NoSuchName | NestedName | ManyEmbeddings | OddEmbedding | LoaderRaised

  datatype Group = Group(prefix: string, weights: seq<Weight>)

  /** `accepts` says which tensors the weight loader of the parameter at a path takes without raising. */
  datatype Config = Config(parallel: bool, ignored: seq<string>, accepts: (string, Tensor) -> bool)

  type Outcome = Result<seq<Delivery>, Error>

  /******* Names *******/

  function Qualified(prefix: string, name: string): string
  {
    if prefix == "" then name else if name == "" then prefix else prefix + "." + name
  }

  function Joined(name: seq<string>): string
  {
    if name == [] then "" else if |name| == 1 then name[0] else name[0] + "." + Joined(name[1..])
  }

  function Head(name: seq<string>): string { if name == [] then "" else name[0] }

  function Tail(name: seq<string>): seq<string> { if name == [] then [] else name[1..] }

  /** any(qualname.startswith(p) for p in prefixes) */
  predicate StartsWithAny(qualname: string, prefixes: seq<string>)
  {
    exists i :: 0 <= i < |prefixes| && prefixes[i] <= qualname
  }

  /** Embeddings are tied when lm_head is a skipped prefix. */
  predicate Tied(skip: seq<string>) { exists i :: 0 <= i < |skip| && LM_HEAD <= skip[i] }

  function Unskipped(skip: seq<string>): (r: seq<string>)
    ensures !Tied(r)
  {
    if skip == [] then [] else if LM_HEAD <= skip[0] then Unskipped(skip[1..]) else [skip[0]] + Unskipped(skip[1..])
  }

  /** part.replace("embed_tokens", "lm_head") */
  function Replaced(part: string): string
    decreases |part|
  {
    if part == "" then ""
    else if EMBED_TOKENS <= part then LM_HEAD + Replaced(part[|EMBED_TOKENS|..])
    else [part[0]] + Replaced(part[1..])
  }

  function Renamed(name: seq<string>): (r: seq<string>)
    ensures |r| == |name|
  {
    if name == [] then [] else [Replaced(name[0])] + Renamed(name[1..])
  }

  /** _groupby_prefix: consecutive weights with one first name, that name taken off. */
  function Groups(ws: seq<Weight>): seq<Group>
  {
    if ws == [] then [] else
      var w, later := Weight(Tail(ws[0].name), ws[0].tensor), Groups(ws[1..]);
      if later != [] && later[0].prefix == Head(ws[0].name)
      then [Group(later[0].prefix, [w] + later[0].weights)] + later[1..]
      else [Group(Head(ws[0].name), [w])] + later
  }

  function Find(children: Children, name: string): (r: Option<Module>)
    ensures r.Some? ==> r.value < children
  {
    match children
    case Nobody => None
    case Child(n, it, others) => if n == name then Some(it) else Find(others, name)
  }

  /******* What the patch does *******/

  /** gen_weights: what passes through on its way to a child and is kept for lm_head. */
  function Kept(ws: seq<Weight>): seq<Weight>
  {
    if ws == [] then []
    else (if EMBED_TOKENS <= Head(ws[0].name) then [Weight(Renamed(ws[0].name), ws[0].tensor)] else []) + Kept(ws[1..])
  }

  /** embed_tokens after the loop: an absent or skipped child draws nothing through gen_weights. */
  function Captured(base: string, children: Children, groups: seq<Group>, skip: seq<string>): seq<Weight>
  {
    if groups == [] then []
    else
      var child := Find(children, groups[0].prefix);
      (if child.Some? && !child.value.Absent? && !StartsWithAny(Qualified(base, groups[0].prefix) + ".", skip)
       then Kept(groups[0].weights) else [])
      + Captured(base, children, groups[1..], skip)
  }

  function LoadParam(config: Config, path: string, ws: seq<Weight>, skip: seq<string>, replayed: bool): Outcome
  {
    if ws == [] then Ok([])
    else
      var qualname := Qualified(path, Joined(ws[0].name));
      if StartsWithAny(qualname, skip) then LoadParam(config, path, ws[1..], skip, replayed)
      else if ws[0].name != [] then
        if StartsWithAny(qualname, config.ignored) then LoadParam(config, path, ws[1..], skip, replayed)
          else Err(NestedName)
      else if !config.accepts(path, ws[0].tensor) then Err(LoaderRaised)
      else
        var later := LoadParam(config, path, ws[1..], skip, replayed);
        if later.Err? then later else Ok([Delivery(path, ws[0].tensor, replayed)] + later.value)
  }

  function DeliverAll(base: string, ws: seq<Weight>, replayed: bool): (r: seq<Delivery>)
    ensures |r| == |ws|
    ensures forall i | 0 <= i < |ws| :: r[i] == Delivery(Qualified(base, Joined(ws[i].name)), ws[i].tensor, replayed)
  {
    seq(|ws|, i requires 0 <= i < |ws| => Delivery(Qualified(base, Joined(ws[i].name)), ws[i].tensor, replayed))
  }

  /** A module with its own load_weights. */
  function LoadItself(config: Config, base: string, ws: seq<Weight>, replayed: bool): Outcome
  {
    if forall i | 0 <= i < |ws| :: config.accepts(Qualified(base, Joined(ws[i].name)), ws[i].tensor)
    then Ok(DeliverAll(base, ws, replayed))
    else Err(LoaderRaised)
  }

  /** A group whose prefix names no child module. */
  function LoadOther(config: Config, base: string, params: set<string>, g: Group, skip: seq<string>,
                     replayed: bool): Outcome
  {
    var prefix := Qualified(base, g.prefix);
    if g.prefix in params then
      if StartsWithAny(prefix, skip) then Ok([]) else LoadParam(config, prefix, g.weights, skip, replayed)
    else if StartsWithAny(prefix + ".", skip) || StartsWithAny(prefix, skip) then Ok([])
    else if StartsWithAny(prefix + ".", config.ignored) || StartsWithAny(prefix, config.ignored) then Ok([])
    else Err(NoSuchName)
  }

  function Then(first: Outcome, second: Outcome): Outcome
  {
    if first.Err? then first else if second.Err? then second else Ok(first.value + second.value)
  }

  /** One group of weights: to a child module, or to a parameter. */
  function LoadGroup(config: Config, replay: bool, base: string, m: Module, g: Group, skip: seq<string>,
                     replayed: bool): Outcome
    requires m.Tree?
    decreases m, 0, 0
  {
    var prefix, child := Qualified(base, g.prefix), Find(m.children, g.prefix);
    if child.None? then LoadOther(config, base, m.params, g, skip, replayed)
    else if StartsWithAny(prefix + ".", skip) then Ok([])
    else Load(config, replay, prefix, child.value, g.weights, skip, replayed)
  }

  /** The loop over weight groups; `replay` says whether children replay embeddings in turn. */
  function LoadGroups(config: Config, replay: bool, base: string, m: Module, groups: seq<Group>, skip: seq<string>,
                      replayed: bool): Outcome
    requires m.Tree?
    decreases m, 0, |groups|
  {
    if groups == [] then Ok([])
    else Then(LoadGroup(config, replay, base, m, groups[0], skip, replayed),
      LoadGroups(config, replay, base, m, groups[1..], skip, replayed))
  }

  /** The replay into lm_head after the loop. */
  function Replay(config: Config, base: string, m: Module, captured: seq<Weight>, skip: seq<string>): Outcome
    requires m.Tree?
    decreases m, 0
  {
    if |captured| >= 2 then Err(ManyEmbeddings)
    else if captured == [] then Ok([])
    else
      var g, head := Groups(captured)[0], Find(m.children, LM_HEAD);
      if g.prefix != LM_HEAD then Err(OddEmbedding)
      else if head.None? then Ok([])
      else Load(config, true, Qualified(base, LM_HEAD), head.value, g.weights, Unskipped(skip), true)
  }

  /** patched_load_module; with `replay` false, the recursion without the patch. */
  function Load(config: Config, replay: bool, base: string, m: Module, ws: seq<Weight>, skip: seq<string>,
                replayed: bool): Outcome
    decreases m, 1
  {
    match m
    case Absent => Ok([])
    case SelfLoading => LoadItself(config, base, ws, replayed)
    case Tree(children, params) =>
      var captured := if replay && config.parallel && Tied(skip) then Captured(base, children, Groups(ws), skip)
        else [];
      Then(LoadGroups(config, replay, base, m, Groups(ws), skip, replayed), Replay(config, base, m, captured, skip))
  }

  /******* Everything else is routed as before *******/

  /** With nothing to tie, or one rank, the patch is the recursion without it. */
  lemma {:induction false} UntiedIsPlain(config: Config, base: string, m: Module, ws: seq<Weight>, skip: seq<string>,
                                         replayed: bool)
    requires !config.parallel || !Tied(skip)
    ensures Load(config, true, base, m, ws, skip, replayed) == Load(config, false, base, m, ws, skip, replayed)
    decreases m, 1
  {
    if m.Tree? { UntiedGroups(config, base, m, Groups(ws), skip, replayed); }
  }

  lemma {:induction false} UntiedGroups(config: Config, base: string, m: Module, groups: seq<Group>, skip: seq<string>,
                                        replayed: bool)
    requires m.Tree? && (!config.parallel || !Tied(skip))
    ensures LoadGroups(config, true, base, m, groups, skip, replayed)
            == LoadGroups(config, false, base, m, groups, skip, replayed)
    decreases m, 0, |groups|
  {
    if groups != [] {
      var child := Find(m.children, groups[0].prefix);
      if child.Some? {
        UntiedIsPlain(config, Qualified(base, groups[0].prefix), child.value, groups[0].weights, skip, replayed);
      }
      UntiedGroups(config, base, m, groups[1..], skip, replayed);
    }
  }

  /** The deliveries that are not replays, in order. */
  function Original(ds: seq<Delivery>): seq<Delivery>
  {
    if ds == [] then [] else (if ds[0].replayed then [] else [ds[0]]) + Original(ds[1..])
  }

  lemma {:induction false} OriginalDistributes(a: seq<Delivery>, b: seq<Delivery>)
    ensures Original(a + b) == Original(a) + Original(b)
  {
    if a == [] {
      assert a + b == b;
    } else {
      OriginalDistributes(a[1..], b);
      assert (a + b)[0] == a[0] && (a + b)[1..] == a[1..] + b;
      OriginalRegroups(if a[0].replayed then [] else [a[0]], Original(a[1..]), Original(b));
    }
  }

  lemma OriginalRegroups(a: seq<Delivery>, b: seq<Delivery>, c: seq<Delivery>)
    ensures a + (b + c) == (a + b) + c
  {
  }

  lemma {:induction false} OriginalOfTagged(ds: seq<Delivery>, tag: bool)
    requires forall i | 0 <= i < |ds| :: ds[i].replayed == tag
    ensures Original(ds) == if tag then [] else ds
  {
    if ds != [] { OriginalOfTagged(ds[1..], tag); }
  }

  ghost predicate AllTagged(o: Outcome, tag: bool)
  {
    o.Ok? ==> forall i | 0 <= i < |o.value| :: o.value[i].replayed == tag
  }

  lemma {:induction false} ParamTagged(config: Config, path: string, ws: seq<Weight>, skip: seq<string>, tag: bool)
    ensures AllTagged(LoadParam(config, path, ws, skip, tag), tag)
  {
    if ws != [] { ParamTagged(config, path, ws[1..], skip, tag); }
  }

  /** Without replays of its own, a walk tags everything the way it was told to. */
  lemma {:induction false} PlainTagged(config: Config, base: string, m: Module, ws: seq<Weight>, skip: seq<string>,
                                       tag: bool)
    ensures AllTagged(Load(config, false, base, m, ws, skip, tag), tag)
    decreases m, 1
  {
    if m.Tree? { PlainGroupsTagged(config, base, m, Groups(ws), skip, tag); }
  }

  lemma {:induction false} PlainGroupsTagged(config: Config, base: string, m: Module, groups: seq<Group>,
                                             skip: seq<string>, tag: bool)
    requires m.Tree?
    ensures AllTagged(LoadGroups(config, false, base, m, groups, skip, tag), tag)
    decreases m, 0, |groups|
  {
    if groups != [] {
      var g, child := groups[0], Find(m.children, groups[0].prefix);
      if child.Some? {
        PlainTagged(config, Qualified(base, g.prefix), child.value, g.weights, skip, tag);
      } else {
        ParamTagged(config, Qualified(base, g.prefix), g.weights, skip, tag);
      }
      PlainGroupsTagged(config, base, m, groups[1..], skip, tag);
    }
  }

  /** The patched outcome, replays removed, is the plain one. */
  ghost predicate RoutesAs(patched: Outcome, plain: Outcome)
  {
    patched.Ok? ==> plain.Ok? && Original(patched.value) == plain.value
  }

  lemma ThenRoutes(a: Outcome, b: Outcome, p: Outcome, q: Outcome)
    requires RoutesAs(a, p) && RoutesAs(b, q)
    ensures RoutesAs(Then(a, b), Then(p, q))
  {
    if a.Ok? && b.Ok? { OriginalDistributes(a.value, b.value); }
  }

  lemma TaggedRoutes(o: Outcome, tag: bool)
    requires AllTagged(o, tag)
    ensures RoutesAs(o, if tag then Ok([]) else o)
  {
    if o.Ok? { OriginalOfTagged(o.value, tag); }
  }

  /******* When the patched loader succeeds *******/

  /** embed_tokens when the loop over the groups is done. */
  function Embeddings(config: Config, base: string, m: Module, groups: seq<Group>, skip: seq<string>): seq<Weight>
    requires m.Tree?
  {
    if config.parallel && Tied(skip) then Captured(base, m.children, groups, skip) else []
  }

  /**
   Nothing to replay, or one weight named lm_head exactly, which the loader without the patch takes once
   lm_head is unskipped.
   */
  predicate Replayable(config: Config, base: string, m: Module, captured: seq<Weight>, skip: seq<string>)
    requires m.Tree?
  {
    captured == []
    || (|captured| == 1 && Head(captured[0].name) == LM_HEAD
        && (Find(m.children, LM_HEAD).Some? ==>
              var weight := Weight(Tail(captured[0].name), captured[0].tensor);
              Load(config, false, Qualified(base, LM_HEAD), Find(m.children, LM_HEAD).value, [weight], Unskipped(skip),
                true).Ok?))
  }

  /** At every node that ties embeddings, what is captured can be replayed. */
  predicate Clean(config: Config, base: string, m: Module, ws: seq<Weight>, skip: seq<string>)
    decreases m, 1
  {
    m.Tree? ==>
      && GroupsClean(config, base, m, Groups(ws), skip)
      && Replayable(config, base, m, Embeddings(config, base, m, Groups(ws), skip), skip)
  }

  predicate GroupsClean(config: Config, base: string, m: Module, groups: seq<Group>, skip: seq<string>)
    requires m.Tree?
    decreases m, 0, |groups|
  {
    groups == [] || (GroupClean(config, base, m, groups[0], skip) && GroupsClean(config, base, m, groups[1..], skip))
  }

  predicate GroupClean(config: Config, base: string, m: Module, g: Group, skip: seq<string>)
    requires m.Tree?
    decreases m, 0, 0
  {
    var prefix, child := Qualified(base, g.prefix), Find(m.children, g.prefix);
    child.Some? && !StartsWithAny(prefix + ".", skip) ==> Clean(config, prefix, child.value, g.weights, skip)
  }

  lemma ReplaySucceedsIff(config: Config, base: string, m: Module, captured: seq<Weight>, skip: seq<string>)
    requires m.Tree?
    ensures Replay(config, base, m, captured, skip).Ok? <==> Replayable(config, base, m, captured, skip)
  {
    hide Load;
    var head := Find(m.children, LM_HEAD);
    if |captured| == 1 {
      assert captured == [captured[0]];
      GroupOfOne(captured[0]);
      if head.Some? {
        var ws := [Weight(Tail(captured[0].name), captured[0].tensor)];
        UntiedIsPlain(config, Qualified(base, LM_HEAD), head.value, ws, Unskipped(skip), true);
      }
    }
  }

  /** The patched loader succeeds exactly where the plain one does and every capture can be replayed. */
  lemma {:induction false} LoadSucceedsIff(config: Config, base: string, m: Module, ws: seq<Weight>, skip: seq<string>,
                                           replayed: bool)
    ensures Load(config, true, base, m, ws, skip, replayed).Ok?
            <==> Load(config, false, base, m, ws, skip, replayed).Ok? && Clean(config, base, m, ws, skip)
    decreases m, 1
  {
    if m.Tree? {
      hide Replay, Replayable, Captured, Groups, LoadGroups, GroupsClean;
      GroupsSucceedIff(config, base, m, Groups(ws), skip, replayed);
      ReplaySucceedsIff(config, base, m, Embeddings(config, base, m, Groups(ws), skip), skip);
      NothingToReplay(config, base, m, skip);
    }
  }

  lemma NothingToReplay(config: Config, base: string, m: Module, skip: seq<string>)
    requires m.Tree?
    ensures Replay(config, base, m, [], skip) == Ok([])
  {
  }

  lemma {:induction false} GroupsSucceedIff(config: Config, base: string, m: Module, groups: seq<Group>,
                                            skip: seq<string>, replayed: bool)
    requires m.Tree?
    ensures LoadGroups(config, true, base, m, groups, skip, replayed).Ok?
            <==> (LoadGroups(config, false, base, m, groups, skip, replayed).Ok? &&
                  GroupsClean(config, base, m, groups, skip))
    decreases m, 0, |groups|
  {
    if groups != [] {
      GroupSucceedsIff(config, base, m, groups[0], skip, replayed);
      GroupsSucceedIff(config, base, m, groups[1..], skip, replayed);
    }
  }

  lemma {:induction false} GroupSucceedsIff(config: Config, base: string, m: Module, g: Group, skip: seq<string>,
                                            replayed: bool)
    requires m.Tree?
    ensures LoadGroup(config, true, base, m, g, skip, replayed).Ok? <==> GroupLoads(config, base, m, g, skip, replayed)
    decreases m, 0, 0
  {
    var child := Find(m.children, g.prefix);
    if child.Some? { LoadSucceedsIff(config, Qualified(base, g.prefix), child.value, g.weights, skip, replayed); }
  }

  /** The group loads without the patch, and nothing below it fails to replay. */
  predicate GroupLoads(config: Config, base: string, m: Module, g: Group, skip: seq<string>, replayed: bool)
    requires m.Tree?
  {
    LoadGroup(config, false, base, m, g, skip, replayed).Ok? && GroupClean(config, base, m, g, skip)
  }

  /******* What the patched loader delivers *******/

  /**
   Exactly when the patched loader succeeds, and that it then delivers what the loader without the patch delivers, in
   order, plus the replays.
   */
  lemma RoutesEverythingElse(config: Config, base: string, m: Module, ws: seq<Weight>, skip: seq<string>)
    ensures var patched, plain := Load(config, true, base, m, ws, skip, false),
            Load(config, false, base, m, ws, skip, false);
            && (patched.Ok? <==> plain.Ok? && Clean(config, base, m, ws, skip))
            && (patched.Ok? ==> Original(patched.value) == plain.value)
  {
    hide Load, Clean;
    LoadSucceedsIff(config, base, m, ws, skip, false);
    OutcomesAgree(config, base, m, ws, skip);
  }

  lemma {:induction false} OutcomesAgree(config: Config, base: string, m: Module, ws: seq<Weight>, skip: seq<string>)
    ensures RoutesAs(Load(config, true, base, m, ws, skip, false), Load(config, false, base, m, ws, skip, false))
    decreases m, 1
  {
    hide Captured, Groups, Original, Then;
    match m
    case Absent => TaggedRoutes(Ok([]), false);
    case SelfLoading => TaggedRoutes(LoadItself(config, base, ws, false), false);
    case Tree(children, params) =>
      var captured := if config.parallel && Tied(skip) then Captured(base, children, Groups(ws), skip) else [];
      GroupOutcomesAgree(config, base, m, Groups(ws), skip);
      ReplayTagged(config, base, m, captured, skip);
      TaggedRoutes(Replay(config, base, m, captured, skip), true);
      ThenRoutes(LoadGroups(config, true, base, m, Groups(ws), skip, false), Replay(config, base, m, captured, skip),
                 LoadGroups(config, false, base, m, Groups(ws), skip, false), Ok([]));
  }

  lemma ReplayTagged(config: Config, base: string, m: Module, captured: seq<Weight>, skip: seq<string>)
    requires m.Tree?
    ensures AllTagged(Replay(config, base, m, captured, skip), true)
  {
    var head := Find(m.children, LM_HEAD);
    if |captured| == 1 && head.Some? {
      var ws := Groups(captured)[0].weights;
      UntiedIsPlain(config, Qualified(base, LM_HEAD), head.value, ws, Unskipped(skip), true);
      PlainTagged(config, Qualified(base, LM_HEAD), head.value, ws, Unskipped(skip), true);
    }
  }

  lemma {:induction false} GroupOutcomesAgree(config: Config, base: string, m: Module, groups: seq<Group>,
                                              skip: seq<string>)
    requires m.Tree?
    ensures RoutesAs(LoadGroups(config, true, base, m, groups, skip, false),
            LoadGroups(config, false, base, m, groups, skip, false))
    decreases m, 0, |groups|
  {
    hide Original, Then;
    if groups == [] {
      TaggedRoutes(Ok([]), false);
    } else {
      var g, child := groups[0], Find(m.children, groups[0].prefix);
      var prefix := Qualified(base, g.prefix);
      var rest, plainRest := LoadGroups(config, true, base, m, groups[1..], skip, false),
        LoadGroups(config, false, base, m, groups[1..], skip, false);
      GroupOutcomesAgree(config, base, m, groups[1..], skip);
      if child.None? {
        var first := LoadOther(config, base, m.params, g, skip, false);
        ParamTagged(config, prefix, g.weights, skip, false);
        TaggedRoutes(first, false);
        ThenRoutes(first, rest, first, plainRest);
      } else if StartsWithAny(prefix + ".", skip) {
        TaggedRoutes(Ok([]), false);
        ThenRoutes(Ok([]), rest, Ok([]), plainRest);
      } else {
        OutcomesAgree(config, prefix, child.value, g.weights, skip);
        ThenRoutes(Load(config, true, prefix, child.value, g.weights, skip, false), rest,
                   Load(config, false, prefix, child.value, g.weights, skip, false), plainRest);
      }
    }
  }

  /******* What is captured, weight by weight *******/

  /** The weight passes into a child that loads, and its name there begins like embed_tokens. */
  predicate Draws(base: string, children: Children, w: Weight, skip: seq<string>)
  {
    var child := Find(children, Head(w.name));
    && child.Some? && !child.value.Absent? && !StartsWithAny(Qualified(base, Head(w.name)) + ".", skip)
    && EMBED_TOKENS <= Head(Tail(w.name))
  }

  function Drawn(base: string, children: Children, ws: seq<Weight>, skip: seq<string>): seq<Weight>
  {
    if ws == [] then []
    else (if Draws(base, children, ws[0], skip) then [Weight(Renamed(Tail(ws[0].name)), ws[0].tensor)] else [])
         + Drawn(base, children, ws[1..], skip)
  }

  /** Grouping does not show in what is captured: it is what the weights draw one by one, in order. */
  lemma {:induction false} CapturedAreDrawn(base: string, children: Children, ws: seq<Weight>, skip: seq<string>)
    ensures Captured(base, children, Groups(ws), skip) == Drawn(base, children, ws, skip)
  {
    if ws != [] {
      hide StartsWithAny, Qualified, Renamed;
      CapturedAreDrawn(base, children, ws[1..], skip);
      var head, w, later := Head(ws[0].name), Weight(Tail(ws[0].name), ws[0].tensor), Groups(ws[1..]);
      var first := if EMBED_TOKENS <= Head(w.name) then [Weight(Renamed(w.name), w.tensor)] else [];
      if later != [] && later[0].prefix == head {
        assert ([w] + later[0].weights)[1..] == later[0].weights;
        assert Kept([w] + later[0].weights) == first + Kept(later[0].weights);
        assert Groups(ws)[1..] == later[1..];
      } else {
        assert Kept([w]) == first + Kept([w][1..]) && [w][1..] == [] && Kept([]) == [];
        assert Groups(ws)[1..] == later;
      }
    }
  }

  /** A parameter's own name is replayed as it is. */
  lemma {:induction false} ReplacedKeeps(part: string)
    requires forall i | 0 <= i <= |part| :: !(EMBED_TOKENS <= part[i..])
    ensures Replaced(part) == part
    decreases |part|
  {
    if part != "" {
      assert part[0..] == part;
      forall i | 0 <= i <= |part[1..]| ensures !(EMBED_TOKENS <= part[1..][i..]) {
        assert part[1..][i..] == part[i + 1..];
      }
      ReplacedKeeps(part[1..]);
    }
  }

  /** During a replay exactly the prefixes that begin with lm_head are off the list. */
  lemma {:induction false} UnskippedAre(skip: seq<string>, p: string)
    ensures multiset(Unskipped(skip))[p] == if LM_HEAD <= p then 0 else multiset(skip)[p]
  {
    if skip != [] {
      UnskippedAre(skip[1..], p);
      assert skip == [skip[0]] + skip[1..];
    }
  }

  /******* lm_head gets the embedding *******/

  lemma {:induction false} GroupHolding(ws: seq<Weight>, i: nat) returns (k: nat)
    requires i < |ws|
    ensures k < |Groups(ws)| && Groups(ws)[k].prefix == Head(ws[i].name)
    ensures Weight(Tail(ws[i].name), ws[i].tensor) in Groups(ws)[k].weights
  {
    var later := Groups(ws[1..]);
    var merged := later != [] && later[0].prefix == Head(ws[0].name);
    if i == 0 {
      k := 0;
    } else {
      var j := GroupHolding(ws[1..], i - 1);
      k := if merged then j else j + 1;
    }
  }

  lemma {:induction false} KeptHas(ws: seq<Weight>, w: Weight)
    requires w in ws && EMBED_TOKENS <= Head(w.name)
    ensures Weight(Renamed(w.name), w.tensor) in Kept(ws)
  {
    if ws[0] != w { KeptHas(ws[1..], w); }
  }

  lemma {:induction false} CapturedHas(base: string, children: Children, groups: seq<Group>, skip: seq<string>, k: nat,
                                       w: Weight)
    requires k < |groups| && w in Kept(groups[k].weights)
    requires var child := Find(children, groups[k].prefix);
             child.Some? && !child.value.Absent? && !StartsWithAny(Qualified(base, groups[k].prefix) + ".", skip)
    ensures w in Captured(base, children, groups, skip)
  {
    hide Kept, StartsWithAny, Qualified;
    if k > 0 { CapturedHas(base, children, groups[1..], skip, k - 1, w); }
  }

  lemma EmbedTokensBecomesLmHead(p: string)
    ensures Renamed([EMBED_TOKENS, p]) == [LM_HEAD, Replaced(p)]
  {
    assert EMBED_TOKENS[|EMBED_TOKENS|..] == "";
    assert Replaced(EMBED_TOKENS) == LM_HEAD + Replaced("") == LM_HEAD;
    assert [EMBED_TOKENS, p][1..] == [p] && [p][1..] == [];
  }

  lemma GroupOfOne(w: Weight)
    ensures Groups([w]) == [Group(Head(w.name), [Weight(Tail(w.name), w.tensor)])]
  {
    assert [w][1..] == [] && Groups([]) == [];
  }

  /** One weight for one parameter of a childless head. */
  lemma HeadTakesOne(config: Config, path: string, head: Module, q: string, t: Tensor, skip: seq<string>)
    requires head.Tree? && q in head.params && Find(head.children, q).None? && !Tied(skip)
    requires !StartsWithAny(Qualified(path, q), skip)
    ensures Load(config, true, path, head, [Weight([q], t)], skip, true)
            == if config.accepts(Qualified(path, q), t) then Ok([Delivery(Qualified(path, q), t, true)])
               else Err(LoaderRaised)
  {
    var g := Group(q, [Weight([], t)]);
    var taken := if config.accepts(Qualified(path, q), t) then Ok([Delivery(Qualified(path, q), t, true)])
      else Err(LoaderRaised);
    GroupOfOne(Weight([q], t));
    assert [q][1..] == [];
    assert Groups([Weight([q], t)]) == [g];
    assert LoadParam(config, Qualified(path, q), g.weights, skip, true)
           == taken by {
      assert g.weights[1..] == [] && Joined([]) == "" && Qualified(Qualified(path, q), "") == Qualified(path, q);
      assert [Delivery(Qualified(path, q), t, true)] + [] == [Delivery(Qualified(path, q), t, true)];
    }
    assert [g][1..] == [];
    assert LoadGroups(config, true, path, head, [], skip, true) == Ok([]);
    assert LoadGroups(config, true, path, head, [g], skip, true) == taken;
  }

  /**
   Where embed_tokens sits one level below a node with an lm_head child, the load of that node succeeds exactly when the
   rest of it does, no second weight is captured and lm_head's parameter takes the tensor; it then delivers, after
   everything else, the embedding's tensor to lm_head's parameter of the same name, and nothing more.
   */
  lemma LmHeadGetsEmbedding(config: Config, base: string, m: Module, ws: seq<Weight>, skip: seq<string>, replayed: bool,
                            c: string, p: string, i: nat)
    requires config.parallel && Tied(skip) && m.Tree?
    requires i < |ws| && ws[i].name == [c, EMBED_TOKENS, p]
    requires var child := Find(m.children, c);
             child.Some? && !child.value.Absent? && !StartsWithAny(Qualified(base, c) + ".", skip)
    requires var head := Find(m.children, LM_HEAD);
             && head.Some? && head.value.Tree? && Replaced(p) in head.value.params
             && Find(head.value.children, Replaced(p)).None?
    requires !StartsWithAny(Qualified(Qualified(base, LM_HEAD), Replaced(p)), Unskipped(skip))
    ensures var load := Load(config, true, base, m, ws, skip, replayed);
            && (load.Ok? <==>
                && LoadGroups(config, false, base, m, Groups(ws), skip, replayed).Ok?
                && GroupsClean(config, base, m, Groups(ws), skip)
                && |Captured(base, m.children, Groups(ws), skip)| == 1
                && config.accepts(Qualified(Qualified(base, LM_HEAD), Replaced(p)), ws[i].tensor))
            && (load.Ok? ==>
                var others := LoadGroups(config, true, base, m, Groups(ws), skip, replayed);
                && others.Ok?
                && load.value == others.value
                     + [Delivery(Qualified(Qualified(base, LM_HEAD), Replaced(p)), ws[i].tensor, true)])
  {
    hide Groups, Captured, Kept, LoadGroups, GroupsClean, Replaced, Renamed, Qualified, StartsWithAny;
    var groups, t := Groups(ws), ws[i].tensor;
    var captured := Captured(base, m.children, groups, skip);
    var k := GroupHolding(ws, i);
    var w := Weight([EMBED_TOKENS, p], t);
    assert Tail(ws[i].name) == w.name;
    EmbedTokensBecomesLmHead(p);
    KeptHas(groups[k].weights, w);
    CapturedHas(base, m.children, groups, skip, k, Weight([LM_HEAD, Replaced(p)], t));
    GroupsSucceedIff(config, base, m, groups, skip, replayed);
    if |captured| == 1 {
      assert captured == [Weight([LM_HEAD, Replaced(p)], t)];
      GroupOfOne(captured[0]);
      assert Tail(captured[0].name) == [Replaced(p)];
      HeadTakesOne(config, Qualified(base, LM_HEAD), Find(m.children, LM_HEAD).value, Replaced(p), t, Unskipped(skip));
    } else {
      assert |captured| >= 2;
    }
  }

  /******* When lm_head is left unskipped *******/

  /** The load stops in the middle of a replay, at this node or in the first group that fails. */
  predicate Breaks(config: Config, base: string, m: Module, ws: seq<Weight>, skip: seq<string>, replayed: bool)
    decreases m, 1
  {
    && m.Tree?
    && (|| GroupsBreak(config, base, m, Groups(ws), skip, replayed)
        || (var captured := Embeddings(config, base, m, Groups(ws), skip);
            && LoadGroups(config, false, base, m, Groups(ws), skip, replayed).Ok?
            && GroupsClean(config, base, m, Groups(ws), skip)
            && |captured| == 1 && !Replayable(config, base, m, captured, skip)))
  }

  predicate GroupsBreak(config: Config, base: string, m: Module, groups: seq<Group>, skip: seq<string>, replayed: bool)
    requires m.Tree?
    decreases m, 0, |groups|
  {
    groups != [] &&
      if GroupLoads(config, base, m, groups[0], skip, replayed)
      then GroupsBreak(config, base, m, groups[1..], skip, replayed)
      else GroupBreaks(config, base, m, groups[0], skip, replayed)
  }

  predicate GroupBreaks(config: Config, base: string, m: Module, g: Group, skip: seq<string>, replayed: bool)
    requires m.Tree?
    decreases m, 0, 0
  {
    var prefix, child := Qualified(base, g.prefix), Find(m.children, g.prefix);
    child.Some? && !StartsWithAny(prefix + ".", skip) && Breaks(config, prefix, child.value, g.weights, skip, replayed)
  }

  const PARALLEL := Config(true, [], (path, tensor) => true)

  const PER_LAYER_MODEL := Tree(Child("model", SelfLoading, Child(LM_HEAD, Tree(Nobody, {"weight"}), Nobody)), {})

  const PER_LAYER_WEIGHT := Weight(["model", "embed_tokens_per_layer", "weight"], 7)

  /** A longer name that begins like embed_tokens is captured, but not under the name lm_head. */
  lemma PerLayerNameIsOdd()
    ensures EMBED_TOKENS <= "embed_tokens_per_layer" && Replaced("embed_tokens_per_layer") != LM_HEAD
  {
    var rest := "_per_layer";
    assert "embed_tokens_per_layer"[|EMBED_TOKENS|..] == rest;
    assert Replaced(rest) == [rest[0]] + Replaced(rest[1..]);
    assert |Replaced("embed_tokens_per_layer")| > |LM_HEAD|;
  }

  lemma PerLayerGroups()
    ensures var g := Group("model", [Weight(["embed_tokens_per_layer", "weight"], 7)]);
            && Groups([PER_LAYER_WEIGHT]) == [g]
            && (exists w: Weight :: Kept(g.weights) == [w] && Head(w.name) == Replaced("embed_tokens_per_layer"))
  {
    GroupOfOne(PER_LAYER_WEIGHT);
    PerLayerNameIsOdd();
    var w := Weight(["embed_tokens_per_layer", "weight"], 7);
    assert PER_LAYER_WEIGHT.name[1..] == w.name;
    assert Kept([w]) == [Weight(Renamed(w.name), 7)] + Kept([w][1..]);
    assert [w][1..] == [] && Kept([]) == [];
    assert Kept([w]) == [Weight(Renamed(w.name), 7)];
  }

  lemma PerLayerCapture()
    ensures var m, ws, skip := PER_LAYER_MODEL, [PER_LAYER_WEIGHT], ["lm_head."];
            && Tied(skip) && Unskipped(skip) != skip
            && LoadGroups(PARALLEL, false, "", m, Groups(ws), skip, false).Ok?
            && LoadGroups(PARALLEL, true, "", m, Groups(ws), skip, false).Ok?
            && GroupsClean(PARALLEL, "", m, Groups(ws), skip)
            && |Captured("", m.children, Groups(ws), skip)| == 1
            && Head(Captured("", m.children, Groups(ws), skip)[0].name) != LM_HEAD
  {
    hide Groups, Kept, Replaced;
    var m, skip := PER_LAYER_MODEL, ["lm_head."];
    var g := Group("model", [Weight(["embed_tokens_per_layer", "weight"], 7)]);
    PerLayerNameIsOdd();
    PerLayerGroups();
    assert LM_HEAD <= skip[0] && !(skip[0] <= "model.");
    assert [g][1..] == [];
    assert LoadGroup(PARALLEL, false, "", m, g, skip, false).Ok?
           && LoadGroup(PARALLEL, true, "", m, g, skip, false).Ok?;
    assert LoadGroups(PARALLEL, false, "", m, [], skip, false) == Ok([]);
    assert LoadGroups(PARALLEL, true, "", m, [], skip, false) == Ok([]);
    assert Captured("", m.children, [g], skip) == Kept(g.weights) + Captured("", m.children, [], skip)
           == Kept(g.weights);
  }

  /** A weight whose name only begins like embed_tokens fails the patched load, and leaves lm_head unskipped. */
  lemma PerLayerEmbeddingBreaks()
    ensures var ws, skip := [PER_LAYER_WEIGHT], ["lm_head."];
            && Load(PARALLEL, false, "", PER_LAYER_MODEL, ws, skip, false).Ok?
            && Load(PARALLEL, true, "", PER_LAYER_MODEL, ws, skip, false) == Err(OddEmbedding)
            && !Clean(PARALLEL, "", PER_LAYER_MODEL, ws, skip)
            && Breaks(PARALLEL, "", PER_LAYER_MODEL, ws, skip, false) && Unskipped(skip) != skip
  {
    hide Groups, Captured, LoadGroups, GroupsClean, GroupsBreak, Unskipped, Tied;
    PerLayerCapture();
    var captured := Captured("", PER_LAYER_MODEL.children, Groups([PER_LAYER_WEIGHT]), ["lm_head."]);
    assert captured == [captured[0]];
    GroupOfOne(captured[0]);
  }

  /******* The loader itself *******/

  lemma ThenNothing(a: Outcome)
    ensures Then(Ok([]), a) == a
    ensures Then(a, Ok([])) == a
  {
    if a.Ok? { assert [] + a.value == a.value && a.value + [] == a.value; }
  }

  lemma ThenRegroups(ds: seq<Delivery>, first: Outcome, later: Outcome)
    ensures first.Ok? ==> Then(Ok(ds), Then(first, later)) == Then(Ok(ds + first.value), later)
    ensures first.Err? ==> Then(Ok(ds), Then(first, later)) == first
  {
    if first.Ok? && later.Ok? { assert ds + (first.value + later.value) == (ds + first.value) + later.value; }
  }

  /** What a failed loop and a finished one make of the whole load, and of the prefixes. */
  lemma LoadUnfolds(config: Config, base: string, m: Module, ws: seq<Weight>, skip: seq<string>, replayed: bool)
    requires m.Tree?
    ensures var whole := LoadGroups(config, true, base, m, Groups(ws), skip, replayed);
            var captured := Embeddings(config, base, m, Groups(ws), skip);
            && Load(config, true, base, m, ws, skip, replayed) == Then(whole, Replay(config, base, m, captured, skip))
            && (whole.Err? ==> Load(config, true, base, m, ws, skip, replayed) == whole)
            && (Breaks(config, base, m, ws, skip, replayed) <==>
                  || GroupsBreak(config, base, m, Groups(ws), skip, replayed)
                  || (whole.Ok? && |captured| == 1 && !Replayable(config, base, m, captured, skip)))
  {
    hide LoadGroups, Replay, Captured, Groups, GroupsClean, GroupsBreak, Replayable;
    GroupsSucceedIff(config, base, m, Groups(ws), skip, replayed);
  }

  lemma {:induction false} UnskippedTwice(skip: seq<string>)
    ensures Unskipped(Unskipped(skip)) == Unskipped(skip)
  {
    if skip != [] { UnskippedTwice(skip[1..]); }
  }

  lemma LoopStep(config: Config, base: string, m: Module, groups: seq<Group>, i: nat, skip: seq<string>, replayed: bool)
    requires m.Tree? && i < |groups|
    ensures LoadGroups(config, true, base, m, groups[i..], skip, replayed)
         == Then(LoadGroup(config, true, base, m, groups[i], skip, replayed),
                 LoadGroups(config, true, base, m, groups[i + 1..], skip, replayed))
    ensures var g := groups[i]; var child := Find(m.children, g.prefix);
            Captured(base, m.children, groups[i..], skip)
            == (if child.Some? && !child.value.Absent? && !StartsWithAny(Qualified(base, g.prefix) + ".", skip)
                then Kept(g.weights) else [])
               + Captured(base, m.children, groups[i + 1..], skip)
    ensures GroupsBreak(config, base, m, groups[i..], skip, replayed)
            <==> if LoadGroup(config, true, base, m, groups[i], skip, replayed).Ok?
                 then GroupsBreak(config, base, m, groups[i + 1..], skip, replayed)
                 else GroupBreaks(config, base, m, groups[i], skip, replayed)
  {
    hide Load, Then, Kept, StartsWithAny, LoadGroup, GroupLoads;
    assert groups[i..][0] == groups[i] && groups[i..][1..] == groups[i + 1..];
    GroupSucceedsIff(config, base, m, groups[i], skip, replayed);
  }

  lemma LoopEnd(config: Config, base: string, m: Module, groups: seq<Group>, skip: seq<string>, replayed: bool)
    requires m.Tree?
    ensures LoadGroups(config, true, base, m, groups[|groups|..], skip, replayed) == Ok([])
    ensures Captured(base, m.children, groups[|groups|..], skip) == []
    ensures !GroupsBreak(config, base, m, groups[|groups|..], skip, replayed)
  {
  }

  class AutoWeightsLoader {
    const config: Config
    var skipPrefixes: seq<string>

    constructor (config: Config, skipPrefixes: seq<string>)
      ensures this.config == config && this.skipPrefixes == skipPrefixes
    {
      this.config := config;
      this.skipPrefixes := skipPrefixes;
    }

    /** _load_module. The prefixes are as they were, unless the load breaks in the middle of a replay. */
    method LoadModule(base: string, m: Module, ws: seq<Weight>, replayed: bool) returns (r: Outcome)
      modifies this
      ensures r == Load(config, true, base, m, ws, old(skipPrefixes), replayed)
      ensures skipPrefixes == if Breaks(config, base, m, ws, old(skipPrefixes), replayed)
                              then Unskipped(old(skipPrefixes)) else old(skipPrefixes)
      ensures Breaks(config, base, m, ws, old(skipPrefixes), replayed) ==> r.Err?
      decreases m, 2
    {
      if m.Absent? {
        return Ok([]);
      }
      if m.SelfLoading? {
        return LoadItself(config, base, ws, replayed);
      }
      hide Load, LoadGroups, Replay, Captured, Breaks, GroupsBreak, Replayable;
      LoadUnfolds(config, base, m, ws, skipPrefixes, replayed);
      ReplaySucceedsIff(config, base, m, Embeddings(config, base, m, Groups(ws), skipPrefixes), skipPrefixes);
      var loaded, embedTokens := LoadChildren(base, m, Groups(ws), replayed);
      if loaded.Err? {
        return loaded;
      }
      var more := ReplayEmbeddings(base, m, embedTokens);
      r := Then(loaded, more);
    }

    /** The loop over weight groups, embeddings kept on the way. */
    method LoadChildren(base: string, m: Module, groups: seq<Group>, replayed: bool)
      returns (r: Outcome, embedTokens: seq<Weight>)
      requires m.Tree?
      modifies this
      ensures r == LoadGroups(config, true, base, m, groups, old(skipPrefixes), replayed)
      ensures r.Ok? ==> embedTokens == Embeddings(config, base, m, groups, old(skipPrefixes))
      ensures skipPrefixes == if GroupsBreak(config, base, m, groups, old(skipPrefixes), replayed)
                              then Unskipped(old(skipPrefixes)) else old(skipPrefixes)
      ensures GroupsBreak(config, base, m, groups, old(skipPrefixes), replayed) ==> r.Err?
      decreases m, 1
    {
      hide Load, LoadGroups, Then, Captured, Kept, StartsWithAny, LoadOther, Breaks, GroupsBreak;
      var replay, ds: seq<Delivery> := config.parallel && Tied(skipPrefixes), [];
      embedTokens := [];
      ghost var skip, whole := skipPrefixes, LoadGroups(config, true, base, m, groups, skipPrefixes, replayed);
      ThenNothing(whole);
      assert groups[0..] == groups;
      for i := 0 to |groups|
        invariant skipPrefixes == skip
        invariant whole == Then(Ok(ds), LoadGroups(config, true, base, m, groups[i..], skip, replayed))
        invariant replay ==>
          Captured(base, m.children, groups, skip) == embedTokens + Captured(base, m.children, groups[i..], skip)
        invariant !replay ==> embedTokens == []
        invariant GroupsBreak(config, base, m, groups, skip, replayed)
                  <==> GroupsBreak(config, base, m, groups[i..], skip, replayed)
      {
        var g := groups[i];
        LoopStep(config, base, m, groups, i, skip, replayed);
        var prefix, child := Qualified(base, g.prefix), Find(m.children, g.prefix);
        var first: Outcome, kept: seq<Weight> := Ok([]), [];
        if child.None? {
          first := LoadOther(config, base, m.params, g, skipPrefixes, replayed);
        } else if !StartsWithAny(prefix + ".", skipPrefixes) {
          first := LoadModule(prefix, child.value, g.weights, replayed);
          if replay && !child.value.Absent? {
            kept := Kept(g.weights);
          }
        }
        assert first == LoadGroup(config, true, base, m, g, skip, replayed);
        ThenRegroups(ds, first, LoadGroups(config, true, base, m, groups[i + 1..], skip, replayed));
        if first.Err? {
          return first, [];
        }
        KeepRegroups(embedTokens, kept, Captured(base, m.children, groups[i + 1..], skip));
        ds, embedTokens := ds + first.value, embedTokens + kept;
      }
      LoopEnd(config, base, m, groups, skip, replayed);
      ThenNothing(Ok(ds));
      r := Ok(ds);
    }

    /** The replay: lm_head comes off the skipped prefixes, and goes back on unless the replay fails. */
    method ReplayEmbeddings(base: string, m: Module, embedTokens: seq<Weight>) returns (r: Outcome)
      requires m.Tree?
      modifies this
      ensures r == Replay(config, base, m, embedTokens, old(skipPrefixes))
      ensures skipPrefixes == if |embedTokens| == 1 && !Replayable(config, base, m, embedTokens, old(skipPrefixes))
                              then Unskipped(old(skipPrefixes)) else old(skipPrefixes)
      decreases m, 0
    {
      hide Load, Groups, Replayable;
      ReplaySucceedsIff(config, base, m, embedTokens, skipPrefixes);
      r := Ok([]);
      if |embedTokens| >= 2 {
        return Err(ManyEmbeddings);
      }
      if |embedTokens| == 1 {
        assert embedTokens == [embedTokens[0]];
        GroupOfOne(embedTokens[0]);
        var saved, g, head := skipPrefixes, Groups(embedTokens)[0], Find(m.children, LM_HEAD);
        skipPrefixes := Unskipped(skipPrefixes);
        if g.prefix != LM_HEAD {
          return Err(OddEmbedding);
        }
        if head.Some? {
          r := LoadModule(Qualified(base, LM_HEAD), head.value, g.weights, true);
          if r.Err? {
            UnskippedTwice(saved);
            return;
          }
        }
        skipPrefixes := saved;
      }
    }
  }

  lemma KeepRegroups(a: seq<Weight>, b: seq<Weight>, c: seq<Weight>)
    ensures a + (b + c) == (a + b) + c
    ensures [] + c == c && a + [] == a
  {
  }
}
