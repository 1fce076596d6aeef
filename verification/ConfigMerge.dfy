/**
 Where an RBLN setting comes from: command-line flags merged into additional_config left to right,
 then additional_config over the environment over the defaults.

 Dictionaries are objects, because the parser's default for --additional-config is one shared object.
 */
module ConfigMerge {
  import opened Options

  datatype Value = Flag(on: bool) | Other(n: int)

  class Dict {
    var entries: map<string, Value>

    constructor (entries: map<string, Value>)
      ensures this.entries == entries
    {
      this.entries := entries;
    }
  }

  /** What a namespace's additional_config attribute may hold. */
  datatype Setting = Nothing | Text(text: string) | Mapping(dict: Dict)

  /** One parsed argument, in the order of argv. */
  datatype Argument =
    | Store(dest: string, value: Value)                 // a --rbln-* option with a value
    | StoreBool(dest: string, option: string)           // a registered --rbln-* / --no-rbln-* pair
    | AdditionalText(text: string)                      // --additional-config with a bare string
    | AdditionalDict(values: map<string, Value>)        // --additional-config with a JSON object

  /** str.removeprefix("rbln_") */
  function FieldOf(dest: string): string { if "rbln_" <= dest then dest[5..] else dest }

  /******* Merging on values *******/

  datatype Parsed = Unset | Bare(text: string) | Merged(entries: map<string, Value>)

  /** What an action finds to write into. */
  function Entries(p: Parsed): map<string, Value> { if p.Merged? then p.entries else map[] }

  /** The entries one argument writes. */
  function Writes(a: Argument): map<string, Value>
  {
    match a
    case Store(dest, value) => map[FieldOf(dest) := value]
    case StoreBool(dest, option) => map[FieldOf(dest) := Flag(!("--no-" <= option))]
    case AdditionalText(_) => map[]
    case AdditionalDict(values) => values
  }

  function Merge(p: Parsed, a: Argument): Parsed
  {
    if a.AdditionalText? then Bare(a.text) else Merged(Entries(p) + Writes(a))
  }

  function MergeAll(p: Parsed, args: seq<Argument>): Parsed
  {
    if args == [] then p else Merge(MergeAll(p, args[..|args| - 1]), args[|args| - 1])
  }

  ghost function Held(s: Setting): Parsed
    reads if s.Mapping? then {s.dict} else {}
  {
    match s
    case Nothing => Unset
    case Text(text) => Bare(text)
    case Mapping(dict) => Merged(dict.entries)
  }

  /******* The argparse actions *******/

  class Namespace {
    var additionalConfig: Setting
    var owned: bool

    /** argparse seeds a namespace with the action's own default object. */
    constructor (default: Setting)
      ensures additionalConfig == default && !owned
    {
      additionalConfig, owned := default, false;
    }

    /** An owned namespace holds a dictionary of its own, not the shared default. */
    ghost predicate Valid(default: Setting)
      reads this
    {
      owned ==> additionalConfig.Mapping? && additionalConfig != default
    }

    ghost function Footprint(): set<object>
      reads this
    {
      {this} + if owned && additionalConfig.Mapping? then {additionalConfig.dict} else {}
    }

    /** _additional_config */
    method OwnDict(ghost default: Setting) returns (d: Dict)
      requires Valid(default)
      modifies this
      ensures Valid(default) && owned && additionalConfig == Mapping(d)
      ensures fresh(Footprint() - old(Footprint()))
      ensures d.entries == old(Entries(Held(additionalConfig)))
      ensures old(owned) ==> additionalConfig == old(additionalConfig)
    {
      if !owned {
        var copy := map[];
        if additionalConfig.Mapping? {
          copy := additionalConfig.dict.entries;
        }
        d := new Dict(copy);
        additionalConfig := Mapping(d);
        owned := true;
      } else {
        d := additionalConfig.dict;
      }
    }

    /** The action for one argument. */
    method Act(a: Argument, ghost default: Setting)
      requires Valid(default)
      modifies Footprint()
      ensures Valid(default) && fresh(Footprint() - old(Footprint())) && (owned || additionalConfig.Text?)
      ensures Held(additionalConfig) == Merge(old(Held(additionalConfig)), a)
    {
      if a.AdditionalText? {
        additionalConfig := Text(a.text);
        owned := false;
        return;
      }
      var d := OwnDict(default);
      match a {
        case AdditionalDict(values) => d.entries := d.entries + values;
        case Store(dest, value) => d.entries := d.entries[FieldOf(dest) := value];
        case StoreBool(dest, option) => d.entries := d.entries[FieldOf(dest) := Flag(!("--no-" <= option))];
      }
    }
  }

  /** parse_args: a fresh namespace each time. The shared default is not even in the frame. */
  method ParseArgs(default: Setting, args: seq<Argument>) returns (ns: Namespace)
    ensures fresh(ns) && Held(ns.additionalConfig) == MergeAll(Held(default), args)
    ensures args != [] && default.Mapping? ==> ns.additionalConfig != default
    ensures Held(default) == old(Held(default))
  {
    ns := new Namespace(default);
    ghost var start := Held(default);
    for i := 0 to |args|
      invariant ns.Valid(default) && fresh(ns.Footprint())
      invariant Held(ns.additionalConfig) == MergeAll(start, args[..i])
      invariant i > 0 ==> ns.owned || ns.additionalConfig.Text?
      invariant default.Mapping? ==> Held(default) == start
    {
      assert args[..i + 1][..i] == args[..i];
      ns.Act(args[i], default);
    }
    assert args[..|args|] == args;
  }

  /******* Left to right, last write wins *******/

  /** The last value written for a key since the last bare string. */
  function LastWrite(args: seq<Argument>, key: string): Option<Value>
  {
    if args == [] then None
    else
      var a := args[|args| - 1];
      if a.AdditionalText? then None
      else if key in Writes(a) then Some(Writes(a)[key])
      else LastWrite(args[..|args| - 1], key)
  }

  predicate MentionsText(args: seq<Argument>) { exists i :: 0 <= i < |args| && args[i].AdditionalText? }

  lemma {:induction false} MergeIsLastWrite(p: Parsed, args: seq<Argument>, key: string)
    ensures var m := Entries(MergeAll(p, args));
            match LastWrite(args, key)
            case Some(v) => key in m && m[key] == v
            case None =>
              if MentionsText(args) then key !in m
              else (key in m <==> key in Entries(p)) && (key in m ==> m[key] == Entries(p)[key])
    ensures args != [] ==> (MergeAll(p, args).Bare? <==> args[|args| - 1].AdditionalText?)
    ensures args != [] && MergeAll(p, args).Bare? ==> MergeAll(p, args).text == args[|args| - 1].text
    ensures args == [] ==> MergeAll(p, args) == p
  {
    if args != [] {
      var before, a := args[..|args| - 1], args[|args| - 1];
      MergeIsLastWrite(p, before, key);
      assert a.AdditionalText? ==> MentionsText(args);
      assert MentionsText(before) ==> MentionsText(args) by {
        if MentionsText(before) {
          var i :| 0 <= i < |before| && before[i].AdditionalText?;
          assert args[i].AdditionalText?;
        }
      }
      if MentionsText(args) && !a.AdditionalText? {
        var i :| 0 <= i < |args| && args[i].AdditionalText?;
        assert before[i].AdditionalText?;
      }
    }
  }

  /** The option is named after the key, with or without the rbln_ prefix. */
  predicate Names(dest: string, key: string) { dest == "rbln_" + key || (dest == key && !("rbln_" <= dest)) }

  /** The argument gives the key this value: a switch is off exactly when its option begins with --no-. */
  predicate Sets(a: Argument, key: string, v: Value)
  {
    || (a.Store? && Names(a.dest, key) && v == a.value)
    || (a.StoreBool? && Names(a.dest, key) && v.Flag? && (v.on <==> !("--no-" <= a.option)))
    || (a.AdditionalDict? && key in a.values && v == a.values[key])
  }

  lemma NamesIsFieldOf(dest: string, key: string)
    ensures Names(dest, key) <==> FieldOf(dest) == key
  {
    if "rbln_" <= dest { assert dest == "rbln_" + dest[5..]; }
    assert ("rbln_" + key)[5..] == key;
  }

  lemma WritesWhatItSets(a: Argument, key: string, v: Value)
    ensures Sets(a, key, v) <==> key in Writes(a) && Writes(a)[key] == v
  {
    if a.Store? || a.StoreBool? { NamesIsFieldOf(a.dest, key); }
  }

  /** Argument i gives the key its value, and neither another one nor a bare string comes after. */
  ghost predicate LastSets(args: seq<Argument>, i: nat, key: string, v: Value)
  {
    && i < |args| && Sets(args[i], key, v)
    && forall j | i < j < |args| :: !args[j].AdditionalText? && forall u :: !Sets(args[j], key, u)
  }

  lemma {:induction false} LastWriteIsLast(args: seq<Argument>, key: string, v: Value)
    ensures LastWrite(args, key) == Some(v) <==> exists i: nat :: LastSets(args, i, key, v)
  {
    if args != [] {
      hide Sets, Writes;
      var n := |args| - 1;
      var before, a := args[..n], args[n];
      LastWriteIsLast(before, key, v);
      forall u ensures Sets(a, key, u) <==> key in Writes(a) && Writes(a)[key] == u { WritesWhatItSets(a, key, u); }
      if key in Writes(a) { assert Sets(a, key, Writes(a)[key]); }
      if LastWrite(args, key) == Some(v) {
        if !a.AdditionalText? && key in Writes(a) {
          assert LastSets(args, n, key, v);
        } else {
          var i: nat :| LastSets(before, i, key, v);
          forall j | i < j < |args| ensures !args[j].AdditionalText? && forall u :: !Sets(args[j], key, u) {
            assert j < n ==> args[j] == before[j];
          }
          assert LastSets(args, i, key, v);
        }
      }
      if i: nat :| LastSets(args, i, key, v) {
        if i == n {
          assert Sets(a, key, v);
        } else {
          assert !args[n].AdditionalText? && forall u :: !Sets(args[n], key, u);
          assert LastSets(before, i, key, v);
        }
      }
    }
  }

  /******* Resolution *******/

  /** A resolved RBLNConfig gives every field a value. */
  datatype Config = Config(values: map<string, Value>)

  datatype Given = Ready(config: Config) | FromParse(parsed: Parsed)

  datatype Error = NotAMapping | UnknownFields(names: set<string>)

  /** The process environment: which names are set, and what envs.py reads for each attribute. */
  datatype Environment = Environment(names: set<string>, read: string -> Value)

  const ENV_NAME: map<string, string> := map[
    "use_custom_sampler" := "VLLM_RBLN_SAMPLER",
    "use_flash_causal_attn" := "VLLM_RBLN_FLASH_CAUSAL_ATTN",
    "use_batch_attn_opt" := "VLLM_RBLN_BATCH_ATTN_OPT",
    "use_all2all_dispatch" := "VLLM_RBLN_DISPATCH_ALL2ALL",
    "use_all2all_combine" := "VLLM_RBLN_COMBINE_ALL2ALL",
    "enable_sub_block_cache" := "VLLM_RBLN_SUB_BLOCK_CACHE"]

  const ENV_PROBE: map<string, seq<string>> := map[
    "num_devices_per_local_rank" := ["VLLM_RBLN_NUM_DEVICES_PER_LOCAL_RANK", "VLLM_RBLN_TP_SIZE"],
    "use_custom_kernel" := ["RBLN_USE_CUSTOM_KERNEL"]]

  function Upper(s: string): (r: string)
    ensures |r| == |s|
    ensures forall i | 0 <= i < |s| :: r[i] == if 'a' <= s[i] <= 'z' then s[i] - ('a' - 'A') else s[i]
  {
    if s == "" then "" else [if 'a' <= s[0] <= 'z' then s[0] - ('a' - 'A') else s[0]] + Upper(s[1..])
  }

  /** The envs.py attribute a field reads. */
  function EnvAttribute(field: string): string
  {
    if field in ENV_NAME then ENV_NAME[field] else "VLLM_RBLN_" + Upper(field)
  }

  /** The environment names that mean the user set it. */
  function EnvProbes(field: string): seq<string>
  {
    if field in ENV_PROBE then ENV_PROBE[field] else [EnvAttribute(field)]
  }

  predicate SetInEnvironment(env: Environment, field: string)
  {
    exists i :: 0 <= i < |EnvProbes(field)| && EnvProbes(field)[i] in env.names
  }

  function EnvOverrides(env: Environment, fields: set<string>): map<string, Value>
  {
    map f | f in fields && SetInEnvironment(env, f) :: env.read(EnvAttribute(f))
  }

  /** build_rbln_config; `defaults` has one value per field. A missing or empty value counts as an empty mapping. */
  function Build(env: Environment, defaults: map<string, Value>, given: Given): Result<Config, Error>
  {
    match given
    case Ready(config) => Ok(config)
    case FromParse(parsed) =>
      if parsed.Bare? && parsed.text != "" then Err(NotAMapping)
      else
        var entries := Entries(parsed);
        var unknown := entries.Keys - defaults.Keys;
        if unknown != {} then Err(UnknownFields(unknown))
        else Ok(Config(defaults + (EnvOverrides(env, defaults.Keys) + entries)))
  }

  /**
   From argv to config: the last write, else the parser's default, else the environment, else the field's; and
   building again changes nothing.
   */
  lemma Precedence(env: Environment, defaults: map<string, Value>, start: Parsed, args: seq<Argument>, field: string)
    requires field in defaults && Build(env, defaults, FromParse(MergeAll(start, args))).Ok?
    ensures var config := Build(env, defaults, FromParse(MergeAll(start, args))).value;
            && config.values.Keys == defaults.Keys
            && config.values[field] ==
               (match LastWrite(args, field)
                case Some(v) => v
                case None =>
                  if field in Entries(start) && !MentionsText(args) then Entries(start)[field]
                  else if SetInEnvironment(env, field) then env.read(EnvAttribute(field))
                  else defaults[field])
            && forall later: Environment :: Build(later, defaults, Ready(config)) == Ok(config)
  {
    hide MergeAll, LastWrite, MentionsText, SetInEnvironment, EnvAttribute;
    MergeIsLastWrite(start, args, field);
    var entries := Entries(MergeAll(start, args));
    forall key | key in entries ensures key in defaults { assert key !in entries.Keys - defaults.Keys; }
  }

  /** The parsed value is a non-empty bare string: the last argument, or the parser's default when there is none. */
  predicate EndsInText(start: Parsed, args: seq<Argument>)
  {
    if args == [] then start.Bare? && start.text != ""
    else args[|args| - 1].AdditionalText? && args[|args| - 1].text != ""
  }

  /** A key that survives: written since the last bare string, or in the default when there was none. */
  predicate Survives(start: Parsed, args: seq<Argument>, key: string)
  {
    LastWrite(args, key).Some? || (key in Entries(start) && !MentionsText(args))
  }

  /** Exactly which command lines are refused, whatever the parser's default. */
  lemma RefusedIff(env: Environment, defaults: map<string, Value>, start: Parsed, args: seq<Argument>)
    ensures Build(env, defaults, FromParse(MergeAll(start, args))).Err?
            <==> EndsInText(start, args) || exists key :: key !in defaults && Survives(start, args, key)
    ensures Build(env, defaults, FromParse(MergeAll(start, args))) == Err(NotAMapping) <==> EndsInText(start, args)
    ensures var b := Build(env, defaults, FromParse(MergeAll(start, args)));
            b.Err? && !EndsInText(start, args) ==>
              && b.error.UnknownFields?
              && forall key :: key in b.error.names <==> key !in defaults && Survives(start, args, key)
  {
    hide MergeAll, LastWrite, MentionsText, EnvOverrides;
    var entries := Entries(MergeAll(start, args));
    forall key ensures key in entries <==> Survives(start, args, key) { MergeIsLastWrite(start, args, key); }
    MergeIsLastWrite(start, args, "");
    var unknown := entries.Keys - defaults.Keys;
    if unknown != {} {
      var key :| key in unknown;
      assert key !in defaults && Survives(start, args, key);
    }
    forall key | key !in defaults && Survives(start, args, key) ensures unknown != {} { assert key in unknown; }
  }
}
