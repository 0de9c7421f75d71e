/** The compatibility shim `services/trends.py`: a provider function looked up by name in the
    provider modules, its answer cleaned, and a fixed list of tags whenever the provider is
    missing, raises, or has nothing usable. The provider call itself is an input: what it
    returned, or whether it raised a `TypeError` or another exception. */
module Trends {
  import opened Wrappers
  import opened Text
  import opened Seqs

  /** The tags of `_mock_trends`, in order. */
  const MockTags: seq<string> := [
    "#الذكاء_الاصطناعي", "#تسويق", "#ريادة_الأعمال", "#إنتاجية", "#LinkedIn", "#X", "#TikTok",
    "#صناعة_المحتوى", "#مبيعات", "#إدارة", "#تطوير_الذات", "#استراتيجية", "#تحليل_بيانات", "#برمجة",
    "#مستقبل"]

  /** `_mock_trends(limit)`: `base[:limit]`, a negative limit counting from the end. */
  function MockTrends(limit: int): (r: seq<string>)
    ensures |MockTags| == 15
    ensures |r| <= |MockTags| && r == MockTags[..|r|]
    ensures limit >= 0 ==> |r| == if limit < 15 then limit else 15
    ensures limit < 0 ==> |r| == if limit > -15 then 15 + limit else 0
  {
    Take(MockTags, limit)
  }

  /** The names the shim tries, in order, in each module. */
  const ProviderNames: seq<string> := ["get_trending_hashtags", "get_trends", "get_hashtags", "fetch_trends"]

  /** The first of `names` that the module defines as a callable. */
  function FirstCallable(names: seq<string>, callables: set<string>): (r: Option<string>)
    ensures r.Some? ==> r.value in names && r.value in callables
    ensures r.None? <==> forall i :: 0 <= i < |names| ==> names[i] !in callables
    ensures r.Some? && names != [] && names[0] in callables ==> r.value == names[0]
  {
    if names == [] then None
    else if names[0] in callables then Some(names[0])
    else
      var r := FirstCallable(names[1..], callables);
      assert forall i :: 1 <= i < |names| ==> names[i] == names[1..][i - 1];
      r
  }

  /** Where the shim's provider function comes from. */
  datatype Origin = FromProviderModule(name: string) | FromApiModule(name: string)

  /** `_load_provider_func`: each module is `None` when importing it raises, else the set of names
      it binds to callables. The provider module is searched first, then the API module. */
  function LoadProvider(providerModule: Option<set<string>>, apiModule: Option<set<string>>): (r: Option<Origin>)
    ensures providerModule.Some? && FirstCallable(ProviderNames, providerModule.value).Some? ==>
              r == Some(FromProviderModule(FirstCallable(ProviderNames, providerModule.value).value))
    ensures r.None? <==>
              && (providerModule.None? || forall i :: 0 <= i < |ProviderNames| ==> ProviderNames[i] !in providerModule.value)
              && (apiModule.None? || forall i :: 0 <= i < |ProviderNames| ==> ProviderNames[i] !in apiModule.value)
    ensures r.Some? && r.value.FromApiModule? ==> apiModule.Some? && r.value.name in apiModule.value
  {
    var first := if providerModule.Some? then FirstCallable(ProviderNames, providerModule.value) else None;
    if first.Some? then Some(FromProviderModule(first.value))
    else
      var second := if apiModule.Some? then FirstCallable(ProviderNames, apiModule.value) else None;
      if second.Some? then Some(FromApiModule(second.value)) else None
  }

  /** What a call of the provider function produced: a list of items (rendered with `str`),
      some other value, or an exception, which is a `TypeError` or not. */
  datatype Call = ReturnedList(items: seq<string>) | ReturnedOther | Raised(typeError: bool)

  /** The cleaned list a call yields, when it returned a list that is non-empty once cleaned. */
  function Usable(c: Call): (r: Option<seq<string>>)
    ensures r.Some? <==> c.ReturnedList? && StripAll(c.items) != []
    ensures r.Some? ==> r.value == StripAll(c.items)
  {
    if c.ReturnedList? && StripAll(c.items) != [] then Some(StripAll(c.items)) else None
  }

  /** `get_trending_hashtags`: with a provider, its cleaned answer cut to `limit` when usable; on a
      `TypeError` the call is repeated with a positional `limit` (`retry`) and its usable answer
      taken the same way; in every other case (no provider, a non-list or blank answer, any other
      exception, a failing retry) the mock list. */
  function GetTrendingHashtags(provider: Option<Origin>, first: Call, retry: Call, limit: int): (r: seq<string>)
    ensures provider.None? ==> r == MockTrends(limit)
    ensures provider.Some? && Usable(first).Some? ==> r == Take(Usable(first).value, limit)
    ensures provider.Some? && first == Raised(true) && Usable(retry).Some? ==> r == Take(Usable(retry).value, limit)
    ensures provider.Some? && Usable(first).None? && (first != Raised(true) || Usable(retry).None?) ==>
              r == MockTrends(limit)
  {
    if provider.None? then MockTrends(limit)
    else if Usable(first).Some? then Take(Usable(first).value, limit)
    else if first == Raised(true) && Usable(retry).Some? then Take(Usable(retry).value, limit)
    else MockTrends(limit)
  }

  /** The mock tags are non-empty and have no surrounding whitespace. */
  lemma MockTagsTrimmed()
    ensures forall i :: 0 <= i < |MockTags| ==> MockTags[i] != "" && Trimmed(MockTags[i])
  {
  }

  /** Whatever happens, the shim answers with non-blank, stripped tags, no more than `limit` of
      them for a non-negative limit. */
  lemma AnswerShape(provider: Option<Origin>, first: Call, retry: Call, limit: int)
    ensures var r := GetTrendingHashtags(provider, first, retry, limit);
            && (forall i :: 0 <= i < |r| ==> r[i] != "" && Trimmed(r[i]))
            && (limit >= 0 ==> |r| <= limit)
  {
    MockTagsTrimmed();
  }

  /** The functions and classes `services/trends_provider.py` binds at top level. */
  const ProviderModuleCallables: set<string> := {
    "TrendsResult", "TrendsProvider", "_iso_now", "_normalize_hashtag", "_dedupe_keep_order",
    "ExternalTrendsAPIProvider", "StaticFallbackProvider", "SmartMixerProvider", "get_trends_provider",
    "dataclass", "datetime", "timezone"}

  /** The functions and classes `services/trends_api.py` binds at top level. */
  const ApiModuleCallables: set<string> := {"Blueprint", "jsonify", "get_trends_provider", "trending_hashtags"}

  /** Neither provider module defines any of the looked-up names, so the lookup finds nothing and
      the shim always answers with the mock list. */
  lemma RepositoryUsesMock(first: Call, retry: Call, limit: int)
    ensures var provider := LoadProvider(Some(ProviderModuleCallables), Some(ApiModuleCallables));
            && provider == None
            && GetTrendingHashtags(provider, first, retry, limit) == MockTrends(limit)
  {
    assert forall i :: 0 <= i < |ProviderNames| ==> ProviderNames[i] !in ProviderModuleCallables;
    assert forall i :: 0 <= i < |ProviderNames| ==> ProviderNames[i] !in ApiModuleCallables;
  }
}
