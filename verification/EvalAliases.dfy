/** The alias table and its concurrency policy (benchmark/harness/aliases.ts). */
module EvalAliases {
  import opened EvalPolicy

  datatype Alias =
    | ZhipuGlm51 | ZhipuGlm52 | Kimi | MimoV25 | MimoV25Pro | MmxM27 | MmxM3
    | ArkGlm51 | ArkK27 | ArkV4Pro | ArkV4Flash | DsV4Pro | DsV4Flash

  /** A table row: lanes are per model when `modelScope` is set. */
  datatype Target = Target(provider: string, model: string, modelScope: bool)

  const ARK_PROVIDER_LIMIT: nat := 3

  function ModelAliases(alias: Alias): Target {
    match alias
    case ZhipuGlm51 => Target("zhipu-coding", "glm-5.1", false)
    case ZhipuGlm52 => Target("zhipu-coding", "glm-5.2", false)
    case Kimi => Target("kimi-code", "kimi-for-coding", false)
    case MimoV25 => Target("mimo-coding", "mimo-v2.5", false)
    case MimoV25Pro => Target("mimo-coding", "mimo-v2.5-pro", false)
    case MmxM27 => Target("minimax-coding", "MiniMax-M2.7", false)
    case MmxM3 => Target("minimax-coding", "MiniMax-M3", false)
    case ArkGlm51 => Target("ark-coding", "glm-5.1", true)
    case ArkK27 => Target("ark-coding", "kimi-k2.7-code", true)
    case ArkV4Pro => Target("ark-coding", "deepseek-v4-pro", true)
    case ArkV4Flash => Target("ark-coding", "deepseek-v4-flash", true)
    case DsV4Pro => Target("deepseek", "deepseek-v4-pro", false)
    case DsV4Flash => Target("deepseek", "deepseek-v4-flash", false)
  }

  function ResolveEvalConcurrency(alias: Alias): Policy {
    var target := ModelAliases(alias);
    if target.modelScope
    then Policy(target.provider, target.provider + "/" + target.model, ARK_PROVIDER_LIMIT)
    else Policy(target.provider, target.provider, 1)
  }

  function Table(): set<Policy> {
    set alias: Alias :: ResolveEvalConcurrency(alias)
  }

  /** A lane's first and third letters name its provider, and the first its limit. */
  function ProviderOf(first: char, third: char): string {
    match first
    case 'z' => "zhipu-coding"
    case 'k' => "kimi-code"
    case 'a' => "ark-coding"
    case 'd' => "deepseek"
    case _ => if third == 'm' then "mimo-coding" else "minimax-coding"
  }

  lemma LaneNamesProvider(alias: Alias)
    ensures var p := ResolveEvalConcurrency(alias);
      && |p.provider| > 2 && |p.lane| > 2
      && p.provider == ProviderOf(p.lane[0], p.lane[2])
      && p.limit == if p.provider[0] == 'a' then ARK_PROVIDER_LIMIT else 1
  {
  }

  /** The alias table gives each lane one provider and each provider one positive limit. */
  lemma TableIsConsistent()
    ensures Consistent(Table())
  {
    forall a, b | a in Table() && b in Table()
      ensures a.limit >= 1 && (a.lane == b.lane ==> a.provider == b.provider)
      ensures a.provider == b.provider ==> a.limit == b.limit
    {
      var x: Alias :| ResolveEvalConcurrency(x) == a;
      var y: Alias :| ResolveEvalConcurrency(y) == b;
      LaneNamesProvider(x);
      LaneNamesProvider(y);
    }
  }

  lemma LaneText(alias: Alias)
    ensures var p := ResolveEvalConcurrency(alias);
      p.lane == if p.provider == "ark-coding" then "ark-coding/" + ModelAliases(alias).model else p.provider
    ensures ResolveEvalConcurrency(alias).provider == ModelAliases(alias).provider
  {
  }

  /** Two aliases share a lane exactly when they share a provider and, on `ark-coding`, a
      model; that provider allows three calls at once, and every other one. */
  lemma LanesShared(a: Alias, b: Alias)
    ensures var (p, q) := (ResolveEvalConcurrency(a), ResolveEvalConcurrency(b));
      p.lane == q.lane <==>
        p.provider == q.provider && (p.provider == "ark-coding" ==> ModelAliases(a).model == ModelAliases(b).model)
    ensures ResolveEvalConcurrency(a).limit == if ModelAliases(a).provider == "ark-coding" then 3 else 1
  {
    LaneNamesProvider(a);
    LaneNamesProvider(b);
    LaneText(a);
    LaneText(b);
    var (p, q) := (ResolveEvalConcurrency(a), ResolveEvalConcurrency(b));
    if p.lane == q.lane && p.provider == "ark-coding" {
      SuffixesEqual("ark-coding/", ModelAliases(a).model, ModelAliases(b).model);
    }
  }

  lemma SuffixesEqual(prefix: string, a: string, b: string)
    requires prefix + a == prefix + b
    ensures a == b
  {
    assert (prefix + a)[|prefix|..] == a && (prefix + b)[|prefix|..] == b;
  }
}
